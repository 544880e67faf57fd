/** The monitor's check cycle (`OFACMonitor.check_for_updates`) and the state it keeps:
    the time of the last check and the set of known action keys (`full_url`s).

    The network and the mail server are an oracle: the n-th listing request, the n-th detail
    request and the n-th mail get whatever answer the oracle gives for n. A `Trace` records
    the requests made so far, so the n-th request is the one made when the trace holds n.
    The cycle is first stated as functions of the oracle and the state (`Visit`, `Scan`,
    `Cycle`), with its properties as lemmas; the class then runs it step by step and is
    proved to follow those functions. */
module Monitor {
  import opened Text
  import opened Relevance
  import opened Listing
  import opened Notification

  /** The configuration entries the cycle reads (`check_interval` and the mail account
      settings are left to the scheduler and the mail transport). */
  datatype Config = Config(baseUrl: string, recentActionsUrl: string, keywords: seq<string>, channel: string)

  const DefaultConfig: Config :=
    Config("https://ofac.treasury.gov", "https://ofac.treasury.gov/recent-actions", DefaultKeywords, "email")

  /** What the outside world answers: the parsed rows of the n-th listing page (empty when the
      request fails), the n-th detail page (`None` when the request fails), whether the n-th
      mail is delivered, and the plain text the HTML parser extracts from a page. */
  datatype Oracle = Oracle(
    listing: nat -> seq<Row>,
    page: nat -> Option<string>,
    mailAccepted: nat -> bool,
    plainText: string -> string)

  datatype Mail = Mail(subject: string, body: string)

  /** The requests made so far: listing URLs, detail URLs and mails handed to the transport. */
  datatype Trace = Trace(listingRequests: seq<string>, pageRequests: seq<string>, mails: seq<Mail>)

  /** The cache: `last_check` and `known_actions`. */
  datatype Cache = Cache(lastCheck: Option<string>, knownActions: set<string>)

  // ---------------------------------------------------------------------------
  // One notification

  function Subject(a: Action): string
  {
    "OFAC更新提醒 - 中国/香港实体: " + a.title
  }

  /** `send_notification(action, details)`: whether it reports success, and the trace after it.
      Only the email channel hands a mail to the transport. */
  function Notify(cfg: Config, o: Oracle, t: Trace, a: Action, details: string): (bool, Trace)
  {
    var body := Message(a, details, o.plainText(details), cfg.keywords);
    if cfg.channel == "email" then
      (Dispatch(cfg.channel, o.mailAccepted(|t.mails|)), t.(mails := t.mails + [Mail(Subject(a), body)]))
    else
      (Dispatch(cfg.channel, false), t)
  }

  /** An unsupported channel never reports success and sends nothing; email reports what the
      transport answered for the one mail it sends. */
  lemma NotifyChannels(cfg: Config, o: Oracle, t: Trace, a: Action, details: string)
    ensures cfg.channel != "email" && cfg.channel != "sms" && cfg.channel != "wechat" ==>
      Notify(cfg, o, t, a, details) == (false, t)
    ensures cfg.channel == "email" ==>
      Notify(cfg, o, t, a, details).0 == o.mailAccepted(|t.mails|) &&
      Notify(cfg, o, t, a, details).1.mails ==
        t.mails + [Mail(Subject(a), Message(a, details, o.plainText(details), cfg.keywords))]
  {
  }

  // ---------------------------------------------------------------------------
  // One action of the cycle

  /** The state of a cycle between two actions: the known keys, the actions notified so far
      (`new_actions`) and the trace. */
  datatype Progress = Progress(known: set<string>, newActions: seq<Action>, trace: Trace)

  /** What happens to an action: its key is already known; or it is new and its page is
      missing, empty or irrelevant; or it is relevant and the notification succeeded; or it
      is relevant and the notification failed. */
  datatype Verdict = Known | Irrelevant | Delivered | Undelivered

  predicate Relevant(cfg: Config, page: Option<string>)
  {
    page.Some? && page.value != "" && IsRelated(page.value, cfg.keywords)
  }

  /** The next detail page the oracle gives. */
  function NextPage(o: Oracle, p: Progress): Option<string>
  {
    o.page(|p.trace.pageRequests|)
  }

  function WithRequest(t: Trace, url: string): Trace
  {
    t.(pageRequests := t.pageRequests + [url])
  }

  function Judge(cfg: Config, o: Oracle, p: Progress, a: Action): Verdict
  {
    if a.fullUrl in p.known then Known
    else if !Relevant(cfg, NextPage(o, p)) then Irrelevant
    else if Notify(cfg, o, WithRequest(p.trace, a.fullUrl), a, NextPage(o, p).value).0 then Delivered
    else Undelivered
  }

  /** The verdicts after which the key is recorded. */
  predicate Records(v: Verdict)
  {
    v == Irrelevant || v == Delivered
  }

  /** The verdicts for which a notification is attempted. */
  predicate Notifies(v: Verdict)
  {
    v == Delivered || v == Undelivered
  }

  /** The body of the `for action in actions` loop (lines 342-358). A known key is skipped
      without a request; a new key gets one detail request; the key is recorded when the
      page is missing, empty or irrelevant or when the notification succeeded, and only a
      successful notification adds the action to `new_actions`. */
  function Visit(cfg: Config, o: Oracle, p: Progress, a: Action): Progress
  {
    if a.fullUrl in p.known then p
    else
      var details := NextPage(o, p);
      var t := WithRequest(p.trace, a.fullUrl);
      if Relevant(cfg, details) then
        var (sent, t') := Notify(cfg, o, t, a, details.value);
        if sent then Progress(p.known + {a.fullUrl}, p.newActions + [a], t')
        else Progress(p.known, p.newActions, t')
      else Progress(p.known + {a.fullUrl}, p.newActions, t)
  }

  /** What one action does to the state, by its verdict. */
  lemma VisitCases(cfg: Config, o: Oracle, p: Progress, a: Action)
    ensures var q := Visit(cfg, o, p, a);
      && (Judge(cfg, o, p, a) == Known ==> q == p)
      && (Judge(cfg, o, p, a) != Known ==> q.trace.pageRequests == p.trace.pageRequests + [a.fullUrl])
      && q.known == (if Records(Judge(cfg, o, p, a)) then p.known + {a.fullUrl} else p.known)
      && q.newActions == (if Judge(cfg, o, p, a) == Delivered then p.newActions + [a] else p.newActions)
      && q.trace.listingRequests == p.trace.listingRequests
      && (Judge(cfg, o, p, a) == Irrelevant ==> q.trace == WithRequest(p.trace, a.fullUrl))
      && (Notifies(Judge(cfg, o, p, a)) ==>
            q.trace == Notify(cfg, o, WithRequest(p.trace, a.fullUrl), a, NextPage(o, p).value).1)
  {
  }

  /** A relevant new action whose notification failed stays unknown. */
  lemma FailedStaysUnknown(cfg: Config, o: Oracle, p: Progress, a: Action)
    requires a.fullUrl !in p.known && Relevant(cfg, NextPage(o, p))
    requires !Notify(cfg, o, WithRequest(p.trace, a.fullUrl), a, NextPage(o, p).value).0
    ensures a.fullUrl !in Visit(cfg, o, p, a).known
    ensures Visit(cfg, o, p, a).newActions == p.newActions
  {
    assert Judge(cfg, o, p, a) == Undelivered;
    VisitCases(cfg, o, p, a);
  }

  // ---------------------------------------------------------------------------
  // The loop over the actions

  /** The state after the loop has visited `actions`, from state p. */
  function Scan(cfg: Config, o: Oracle, p: Progress, actions: seq<Action>): Progress
    decreases |actions|
  {
    if actions == [] then p
    else Visit(cfg, o, Scan(cfg, o, p, actions[..|actions| - 1]), actions[|actions| - 1])
  }

  function Keys(actions: seq<Action>): set<string>
  {
    set i | 0 <= i < |actions| :: actions[i].fullUrl
  }

  /** The requests the loop made after state p. */
  function NewRequests(p: Progress, q: Progress): seq<string>
  {
    if |p.trace.pageRequests| <= |q.trace.pageRequests| then q.trace.pageRequests[|p.trace.pageRequests|..] else []
  }

  /** Nothing is removed: the known keys only grow, by keys of the listing; the earlier
      notified actions and requests stay as they were; no listing request is made. */
  lemma {:induction false} ScanGrows(cfg: Config, o: Oracle, p: Progress, actions: seq<Action>)
    ensures var q := Scan(cfg, o, p, actions);
      && p.known <= q.known <= p.known + Keys(actions)
      && p.newActions <= q.newActions
      && p.trace.pageRequests <= q.trace.pageRequests
      && q.trace.listingRequests == p.trace.listingRequests
    decreases |actions|
  {
    if actions != [] {
      var init := actions[..|actions| - 1];
      var last := actions[|actions| - 1];
      ScanGrows(cfg, o, p, init);
      VisitCases(cfg, o, Scan(cfg, o, p, init), last);
      assert Keys(init) <= Keys(actions) by {
        forall u | u in Keys(init) ensures u in Keys(actions) {
          var i :| 0 <= i < |init| && init[i].fullUrl == u;
          assert actions[i].fullUrl == u;
        }
      }
      assert last.fullUrl in Keys(actions);
    }
  }

  /** Every detail request of the loop is for a key of the listing that was not known at the
      start: known keys are never fetched again. */
  lemma {:induction false} ScanFetchesOnlyUnknown(cfg: Config, o: Oracle, p: Progress, actions: seq<Action>)
    ensures var q := Scan(cfg, o, p, actions);
      forall u :: u in NewRequests(p, q) ==> u !in p.known && u in Keys(actions)
    decreases |actions|
  {
    if actions != [] {
      var init := actions[..|actions| - 1];
      var last := actions[|actions| - 1];
      var s := Scan(cfg, o, p, init);
      var q := Scan(cfg, o, p, actions);
      ScanFetchesOnlyUnknown(cfg, o, p, init);
      ScanGrows(cfg, o, p, init);
      VisitCases(cfg, o, s, last);
      forall u | u in NewRequests(p, q) ensures u !in p.known && u in Keys(actions) {
        if Judge(cfg, o, s, last) == Known {
          assert NewRequests(p, q) == NewRequests(p, s);
        } else {
          assert NewRequests(p, q) == NewRequests(p, s) + [last.fullUrl];
          if u !in NewRequests(p, s) {
            assert u == last.fullUrl;
          }
        }
        if u in NewRequests(p, s) {
          var i :| 0 <= i < |init| && init[i].fullUrl == u;
          assert actions[i].fullUrl == u;
        } else {
          assert actions[|actions| - 1].fullUrl == u;
        }
      }
    }
  }

  /** Every key recorded by the loop was fetched by it. */
  lemma {:induction false} RecordedWasFetched(cfg: Config, o: Oracle, p: Progress, actions: seq<Action>, u: string)
    requires u in Scan(cfg, o, p, actions).known && u !in p.known
    ensures u in NewRequests(p, Scan(cfg, o, p, actions))
    decreases |actions|
  {
    var init := actions[..|actions| - 1];
    var last := actions[|actions| - 1];
    var s := Scan(cfg, o, p, init);
    var q := Scan(cfg, o, p, actions);
    ScanGrows(cfg, o, p, init);
    VisitCases(cfg, o, s, last);
    if u in s.known {
      RecordedWasFetched(cfg, o, p, init, u);
    }
    if Judge(cfg, o, s, last) != Known {
      assert NewRequests(p, q) == NewRequests(p, s) + [last.fullUrl];
    }
  }

  /** A listed key that is not known at the start is fetched during the loop, so an action
      left unrecorded by one cycle is fetched again by the next one that lists it. */
  lemma {:induction false} ScanFetchesUnknown(cfg: Config, o: Oracle, p: Progress, actions: seq<Action>, i: int)
    requires 0 <= i < |actions| && actions[i].fullUrl !in p.known
    ensures actions[i].fullUrl in NewRequests(p, Scan(cfg, o, p, actions))
    decreases |actions|
  {
    var init := actions[..|actions| - 1];
    var last := actions[|actions| - 1];
    var s := Scan(cfg, o, p, init);
    var q := Scan(cfg, o, p, actions);
    ScanGrows(cfg, o, p, init);
    VisitCases(cfg, o, s, last);
    if i < |actions| - 1 {
      assert init[i] == actions[i];
      ScanFetchesUnknown(cfg, o, p, init, i);
    } else if last.fullUrl in s.known {
      RecordedWasFetched(cfg, o, p, init, last.fullUrl);
    }
    if Judge(cfg, o, s, last) != Known {
      assert NewRequests(p, q) == NewRequests(p, s) + [last.fullUrl];
    } else {
      assert q == s;
    }
  }

  /** Action i of the listing is the one that recorded key u. */
  predicate RecordedAt(cfg: Config, o: Oracle, p: Progress, actions: seq<Action>, i: int, u: string)
  {
    0 <= i < |actions| && actions[i].fullUrl == u &&
    Records(Judge(cfg, o, Scan(cfg, o, p, actions[..i]), actions[i]))
  }

  lemma RecordedAtPrefix(cfg: Config, o: Oracle, p: Progress, actions: seq<Action>, i: int, u: string)
    requires 0 <= i < |actions| - 1
    ensures RecordedAt(cfg, o, p, actions, i, u) <==> RecordedAt(cfg, o, p, actions[..|actions| - 1], i, u)
  {
    var init := actions[..|actions| - 1];
    assert actions[..i] == init[..i];
    assert actions[i] == init[i];
  }

  /** A key the loop recorded was recorded by one of the actions. */
  lemma {:induction false} RecordingAction(cfg: Config, o: Oracle, p: Progress, actions: seq<Action>, u: string)
    returns (i: int)
    requires u in Scan(cfg, o, p, actions).known && u !in p.known
    ensures RecordedAt(cfg, o, p, actions, i, u)
    decreases |actions|
  {
    var n := |actions| - 1;
    var init := actions[..n];
    var s := Scan(cfg, o, p, init);
    VisitCases(cfg, o, s, actions[n]);
    if u in s.known {
      i := RecordingAction(cfg, o, p, init, u);
      RecordedAtPrefix(cfg, o, p, actions, i, u);
    } else {
      i := n;
    }
  }

  /** A key recorded by one of the actions stays known to the end of the loop. */
  lemma {:induction false} RecordedStaysKnown(cfg: Config, o: Oracle, p: Progress, actions: seq<Action>, i: int, u: string)
    requires RecordedAt(cfg, o, p, actions, i, u)
    ensures u in Scan(cfg, o, p, actions).known
    decreases |actions|
  {
    var n := |actions| - 1;
    var init := actions[..n];
    var s := Scan(cfg, o, p, init);
    VisitCases(cfg, o, s, actions[n]);
    if i < n {
      RecordedAtPrefix(cfg, o, p, actions, i, u);
      RecordedStaysKnown(cfg, o, p, init, i, u);
    }
  }

  /** After the loop a key is known exactly when it was known before, or some action with
      that key had a missing, empty or irrelevant page, or a notification that succeeded. */
  lemma ScanKnownIff(cfg: Config, o: Oracle, p: Progress, actions: seq<Action>, u: string)
    ensures u in Scan(cfg, o, p, actions).known <==>
      u in p.known || exists i :: RecordedAt(cfg, o, p, actions, i, u)
  {
    ScanGrows(cfg, o, p, actions);
    if u in Scan(cfg, o, p, actions).known && u !in p.known {
      var i := RecordingAction(cfg, o, p, actions, u);
    }
    if exists i :: RecordedAt(cfg, o, p, actions, i, u) {
      var i :| RecordedAt(cfg, o, p, actions, i, u);
      RecordedStaysKnown(cfg, o, p, actions, i, u);
    }
  }

  /** The actions notified by the loop have distinct keys, none known at the start and all
      known at the end: at most one successful notification per key per cycle. */
  lemma {:induction false} ScanNotifiesOncePerKey(cfg: Config, o: Oracle, p: Progress, actions: seq<Action>)
    ensures var q := Scan(cfg, o, p, actions);
      |p.newActions| <= |q.newActions| &&
      var added := q.newActions[|p.newActions|..];
      (forall x, y :: 0 <= x < y < |added| ==> added[x].fullUrl != added[y].fullUrl) &&
      (forall x :: 0 <= x < |added| ==> added[x].fullUrl !in p.known && added[x].fullUrl in q.known)
    decreases |actions|
  {
    if actions != [] {
      var init := actions[..|actions| - 1];
      var last := actions[|actions| - 1];
      var s := Scan(cfg, o, p, init);
      var q := Scan(cfg, o, p, actions);
      ScanNotifiesOncePerKey(cfg, o, p, init);
      ScanGrows(cfg, o, p, init);
      VisitCases(cfg, o, s, last);
      var older := s.newActions[|p.newActions|..];
      if Judge(cfg, o, s, last) == Delivered {
        assert q.newActions[|p.newActions|..] == older + [last];
        assert last.fullUrl !in s.known;
      } else {
        assert q.newActions == s.newActions;
      }
    }
  }

  /** Action i of the listing is a, and its notification succeeded. */
  predicate DeliveredAt(cfg: Config, o: Oracle, p: Progress, actions: seq<Action>, i: int, a: Action)
  {
    0 <= i < |actions| && actions[i] == a && Judge(cfg, o, Scan(cfg, o, p, actions[..i]), actions[i]) == Delivered
  }

  lemma DeliveredAtPrefix(cfg: Config, o: Oracle, p: Progress, actions: seq<Action>, i: int, a: Action)
    requires 0 <= i < |actions| - 1
    ensures DeliveredAt(cfg, o, p, actions, i, a) <==> DeliveredAt(cfg, o, p, actions[..|actions| - 1], i, a)
  {
    var init := actions[..|actions| - 1];
    assert actions[..i] == init[..i];
    assert actions[i] == init[i];
  }

  /** The actions the loop reported after state p. */
  function NewActions(p: Progress, q: Progress): seq<Action>
  {
    if |p.newActions| <= |q.newActions| then q.newActions[|p.newActions|..] else []
  }

  /** One more visit adds the action to the reported ones exactly when it is delivered. */
  lemma NewActionsStep(cfg: Config, o: Oracle, p: Progress, actions: seq<Action>)
    requires actions != []
    ensures var n := |actions| - 1;
      var s := Scan(cfg, o, p, actions[..n]);
      NewActions(p, Scan(cfg, o, p, actions)) ==
        NewActions(p, s) + (if Judge(cfg, o, s, actions[n]) == Delivered then [actions[n]] else [])
  {
    var n := |actions| - 1;
    var s := Scan(cfg, o, p, actions[..n]);
    ScanGrows(cfg, o, p, actions[..n]);
    VisitCases(cfg, o, s, actions[n]);
  }

  /** An action the loop reported was delivered by one of its visits. */
  lemma {:induction false} ReportingVisit(cfg: Config, o: Oracle, p: Progress, actions: seq<Action>, a: Action)
    returns (i: int)
    requires a in NewActions(p, Scan(cfg, o, p, actions))
    ensures DeliveredAt(cfg, o, p, actions, i, a)
    decreases |actions|
  {
    var n := |actions| - 1;
    var init := actions[..n];
    NewActionsStep(cfg, o, p, actions);
    if a in NewActions(p, Scan(cfg, o, p, init)) {
      i := ReportingVisit(cfg, o, p, init, a);
      DeliveredAtPrefix(cfg, o, p, actions, i, a);
    } else {
      i := n;
    }
  }

  /** An action delivered by one of the visits is reported by the loop. */
  lemma {:induction false} DeliveredIsReported(cfg: Config, o: Oracle, p: Progress, actions: seq<Action>, i: int, a: Action)
    requires DeliveredAt(cfg, o, p, actions, i, a)
    ensures a in NewActions(p, Scan(cfg, o, p, actions))
    decreases |actions|
  {
    var n := |actions| - 1;
    var init := actions[..n];
    NewActionsStep(cfg, o, p, actions);
    if i < n {
      DeliveredAtPrefix(cfg, o, p, actions, i, a);
      DeliveredIsReported(cfg, o, p, init, i, a);
      assert a in NewActions(p, Scan(cfg, o, p, init));
    } else {
      assert Judge(cfg, o, Scan(cfg, o, p, init), actions[n]) == Delivered && a == actions[n];
    }
  }

  /** The loop adds an action to `new_actions` exactly when one of its visits of that action
      delivered the notification. */
  lemma ScanNewActionsIff(cfg: Config, o: Oracle, p: Progress, actions: seq<Action>, a: Action)
    ensures |p.newActions| <= |Scan(cfg, o, p, actions).newActions|
    ensures a in Scan(cfg, o, p, actions).newActions[|p.newActions|..] <==>
      exists i :: DeliveredAt(cfg, o, p, actions, i, a)
  {
    ScanGrows(cfg, o, p, actions);
    if a in NewActions(p, Scan(cfg, o, p, actions)) {
      var i := ReportingVisit(cfg, o, p, actions, a);
    }
    if exists i :: DeliveredAt(cfg, o, p, actions, i, a) {
      var i :| DeliveredAt(cfg, o, p, actions, i, a);
      DeliveredIsReported(cfg, o, p, actions, i, a);
    }
  }

  /** How many actions of the loop were new with a relevant page, i.e. got a notification. */
  function RelevantVisits(cfg: Config, o: Oracle, p: Progress, actions: seq<Action>): nat
    decreases |actions|
  {
    if actions == [] then 0
    else
      var init := actions[..|actions| - 1];
      RelevantVisits(cfg, o, p, init) + (if Notifies(Judge(cfg, o, Scan(cfg, o, p, init), actions[|actions| - 1])) then 1 else 0)
  }

  /** Mails are only appended: on the email channel exactly one per new action with a relevant
      page, and on any other channel none. */
  lemma {:induction false} ScanMails(cfg: Config, o: Oracle, p: Progress, actions: seq<Action>)
    ensures var q := Scan(cfg, o, p, actions);
      && p.trace.mails <= q.trace.mails
      && |q.trace.mails| == |p.trace.mails| + (if cfg.channel == "email" then RelevantVisits(cfg, o, p, actions) else 0)
    decreases |actions|
  {
    if actions != [] {
      var init := actions[..|actions| - 1];
      var last := actions[|actions| - 1];
      var s := Scan(cfg, o, p, init);
      ScanMails(cfg, o, p, init);
      VisitCases(cfg, o, s, last);
      if Notifies(Judge(cfg, o, s, last)) {
        NotifyChannels(cfg, o, WithRequest(s.trace, last.fullUrl), last, NextPage(o, s).value);
      }
    }
  }

  /** When every action of the listing is already known, the loop changes nothing: no detail
      request, no notification, no new key. */
  lemma {:induction false} ScanAllKnown(cfg: Config, o: Oracle, p: Progress, actions: seq<Action>)
    requires forall i :: 0 <= i < |actions| ==> actions[i].fullUrl in p.known
    ensures Scan(cfg, o, p, actions) == p
    decreases |actions|
  {
    if actions != [] {
      var init := actions[..|actions| - 1];
      ScanAllKnown(cfg, o, p, init);
      VisitCases(cfg, o, p, actions[|actions| - 1]);
      assert actions[|actions| - 1].fullUrl in p.known;
    }
  }

  // ---------------------------------------------------------------------------
  // The whole cycle

  /** What a cycle leaves behind: the cache, `new_actions`, the trace, and whether the cache
      was saved. */
  datatype Outcome = Outcome(cache: Cache, newActions: seq<Action>, trace: Trace, saved: bool)

  function ListingOf(cfg: Config, o: Oracle, t: Trace): seq<Action>
  {
    ParseRows(cfg.baseUrl, o.listing(|t.listingRequests|))
  }

  function WithListingRequest(cfg: Config, t: Trace): Trace
  {
    t.(listingRequests := t.listingRequests + [cfg.recentActionsUrl])
  }

  /** `check_for_updates()` run at time `now`, from `cache` and trace t. */
  function Cycle(cfg: Config, o: Oracle, cache: Cache, t: Trace, now: string): Outcome
  {
    var t1 := WithListingRequest(cfg, t);
    var actions := ListingOf(cfg, o, t);
    if actions == [] then Outcome(cache, [], t1, false)
    else
      var q := Scan(cfg, o, Progress(cache.knownActions, [], t1), actions);
      Outcome(Cache(Some(now), q.known), q.newActions, q.trace, true)
  }

  /** An empty listing ends the cycle with the cache untouched and unsaved, and without any
      detail request or mail. */
  lemma CycleEmptyListing(cfg: Config, o: Oracle, cache: Cache, t: Trace, now: string)
    requires ListingOf(cfg, o, t) == []
    ensures var out := Cycle(cfg, o, cache, t, now);
      out.cache == cache && !out.saved && out.newActions == [] &&
      out.trace.pageRequests == t.pageRequests && out.trace.mails == t.mails
  {
  }

  /** A non-empty listing always updates `last_check` and saves once, and the known keys only
      grow, by keys of the listing. */
  lemma CycleKeepsKnown(cfg: Config, o: Oracle, cache: Cache, t: Trace, now: string)
    ensures var out := Cycle(cfg, o, cache, t, now);
      cache.knownActions <= out.cache.knownActions <= cache.knownActions + Keys(ListingOf(cfg, o, t)) &&
      (out.saved <==> ListingOf(cfg, o, t) != []) &&
      (out.saved ==> out.cache.lastCheck == Some(now))
  {
    ScanGrows(cfg, o, Progress(cache.knownActions, [], WithListingRequest(cfg, t)), ListingOf(cfg, o, t));
  }

  /** The detail requests made by one cycle. */
  function CycleRequests(cfg: Config, o: Oracle, cache: Cache, t: Trace, now: string): seq<string>
  {
    var out := Cycle(cfg, o, cache, t, now);
    if |t.pageRequests| <= |out.trace.pageRequests| then out.trace.pageRequests[|t.pageRequests|..] else []
  }

  /** A cycle fetches the detail page of a listed key exactly when the key was not known. */
  lemma CycleFetchesIffUnknown(cfg: Config, o: Oracle, cache: Cache, t: Trace, now: string, u: string)
    ensures u in CycleRequests(cfg, o, cache, t, now) <==>
      u in Keys(ListingOf(cfg, o, t)) && u !in cache.knownActions
  {
    var actions := ListingOf(cfg, o, t);
    var p := Progress(cache.knownActions, [], WithListingRequest(cfg, t));
    if actions != [] {
      var q := Scan(cfg, o, p, actions);
      ScanGrows(cfg, o, p, actions);
      assert CycleRequests(cfg, o, cache, t, now) == NewRequests(p, q);
      ScanFetchesOnlyUnknown(cfg, o, p, actions);
      if u in Keys(actions) && u !in cache.knownActions {
        var i :| 0 <= i < |actions| && actions[i].fullUrl == u;
        ScanFetchesUnknown(cfg, o, p, actions, i);
      }
    }
  }

  /** The actions a cycle notifies have distinct keys, unknown before it and recorded by it. */
  lemma CycleNotifiesOncePerKey(cfg: Config, o: Oracle, cache: Cache, t: Trace, now: string)
    ensures var out := Cycle(cfg, o, cache, t, now);
      (forall x, y :: 0 <= x < y < |out.newActions| ==> out.newActions[x].fullUrl != out.newActions[y].fullUrl) &&
      (forall x :: 0 <= x < |out.newActions| ==>
         out.newActions[x].fullUrl !in cache.knownActions && out.newActions[x].fullUrl in out.cache.knownActions)
  {
    var actions := ListingOf(cfg, o, t);
    if actions != [] {
      var p := Progress(cache.knownActions, [], WithListingRequest(cfg, t));
      ScanNotifiesOncePerKey(cfg, o, p, actions);
      var q := Scan(cfg, o, p, actions);
      assert q.newActions[0..] == q.newActions;
    }
  }

  /** A cycle reports an action exactly when one of its visits of that action delivered the
      notification. */
  lemma CycleNewActionsIff(cfg: Config, o: Oracle, cache: Cache, t: Trace, now: string, a: Action)
    ensures a in Cycle(cfg, o, cache, t, now).newActions <==>
      exists i :: DeliveredAt(cfg, o, Progress(cache.knownActions, [], WithListingRequest(cfg, t)), ListingOf(cfg, o, t), i, a)
  {
    var actions := ListingOf(cfg, o, t);
    var p := Progress(cache.knownActions, [], WithListingRequest(cfg, t));
    if actions != [] {
      ScanNewActionsIff(cfg, o, p, actions, a);
      var q := Scan(cfg, o, p, actions);
      assert q.newActions[0..] == q.newActions;
    }
  }

  /** A cycle whose listing holds one new action fetches its page once; a missing, empty or
      irrelevant page records the key without a notification, and a relevant page sends one
      mail (on the email channel) whose delivery alone decides whether the key is recorded and
      the action reported. */
  lemma OneNewAction(cfg: Config, o: Oracle, cache: Cache, t: Trace, now: string, a: Action)
    requires ListingOf(cfg, o, t) == [a] && a.fullUrl !in cache.knownActions
    ensures var out := Cycle(cfg, o, cache, t, now);
      var page := o.page(|t.pageRequests|);
      && out.saved
      && out.trace.pageRequests == t.pageRequests + [a.fullUrl]
      && (!Relevant(cfg, page) ==>
            out.cache.knownActions == cache.knownActions + {a.fullUrl} && out.newActions == [] && out.trace.mails == t.mails)
      && (Relevant(cfg, page) && cfg.channel == "email" ==>
            out.trace.mails == t.mails + [Mail(Subject(a), Message(a, page.value, o.plainText(page.value), cfg.keywords))] &&
            (out.newActions == [a] <==> o.mailAccepted(|t.mails|)) &&
            (out.newActions == [] <==> !o.mailAccepted(|t.mails|)) &&
            (a.fullUrl in out.cache.knownActions <==> o.mailAccepted(|t.mails|)))
  {
    var p := Progress(cache.knownActions, [], WithListingRequest(cfg, t));
    assert [a][..0] == [];
    assert Scan(cfg, o, p, [a]) == Visit(cfg, o, p, a);
    VisitCases(cfg, o, p, a);
    if Relevant(cfg, NextPage(o, p)) {
      NotifyChannels(cfg, o, WithRequest(p.trace, a.fullUrl), a, NextPage(o, p).value);
    }
  }

  /** Two cycles in a row: the second never fetches a key the first recorded, and it fetches
      again every listed key the first left unrecorded (a relevant action whose notification
      failed and whose key no later action of that cycle recorded). */
  lemma TwoCycles(cfg: Config, o: Oracle, cache: Cache, t: Trace, now1: string, now2: string, u: string)
    ensures var first := Cycle(cfg, o, cache, t, now1);
      (u in first.cache.knownActions ==> u !in CycleRequests(cfg, o, first.cache, first.trace, now2)) &&
      (u !in first.cache.knownActions && u in Keys(ListingOf(cfg, o, first.trace)) ==>
         u in CycleRequests(cfg, o, first.cache, first.trace, now2))
  {
    var first := Cycle(cfg, o, cache, t, now1);
    CycleFetchesIffUnknown(cfg, o, first.cache, first.trace, now2, u);
  }

  /** A failed notification can be lost for good. Two listed actions of the same day share key
      K; the first has a relevant page but its mail is not delivered, so K stays unknown; the
      second has no relevant page, so the loop records K. The cycle reports nothing, and the
      next cycle does not fetch K again. */
  lemma FailedThenRecordedSameDay(cfg: Config, o: Oracle, cache: Cache, t: Trace, now1: string, now2: string, a1: Action, a2: Action)
    requires cfg.channel == "email"
    requires ListingOf(cfg, o, t) == [a1, a2] && a1.fullUrl == a2.fullUrl && a1.fullUrl !in cache.knownActions
    requires Relevant(cfg, o.page(|t.pageRequests|)) && !o.mailAccepted(|t.mails|)
    requires !Relevant(cfg, o.page(|t.pageRequests| + 1))
    ensures var out := Cycle(cfg, o, cache, t, now1);
      && out.newActions == []
      && a1.fullUrl in out.cache.knownActions
      && out.trace.pageRequests == t.pageRequests + [a1.fullUrl, a1.fullUrl]
      && |out.trace.mails| == |t.mails| + 1
      && a1.fullUrl !in CycleRequests(cfg, o, out.cache, out.trace, now2)
  {
    var p := Progress(cache.knownActions, [], WithListingRequest(cfg, t));
    var actions := [a1, a2];
    assert actions[..1] == [a1];
    assert [a1][..0] == [];
    assert Scan(cfg, o, p, []) == p;
    var s := Scan(cfg, o, p, [a1]);
    assert s == Visit(cfg, o, p, a1);
    VisitCases(cfg, o, p, a1);
    NotifyChannels(cfg, o, WithRequest(p.trace, a1.fullUrl), a1, NextPage(o, p).value);
    assert Judge(cfg, o, p, a1) == Undelivered;
    assert Scan(cfg, o, p, actions) == Visit(cfg, o, s, a2);
    VisitCases(cfg, o, s, a2);
    assert Judge(cfg, o, s, a2) == Irrelevant;
    var out := Cycle(cfg, o, cache, t, now1);
    CycleFetchesIffUnknown(cfg, o, out.cache, out.trace, now2, a1.fullUrl);
  }

  // ---------------------------------------------------------------------------
  // The outside world

  /** The HTTP client, the HTML parser and the mail transport, answering from an oracle and
      recording every request. */
  class Web {
    const oracle: Oracle
    var trace: Trace

    constructor (oracle: Oracle)
      ensures this.oracle == oracle && trace == Trace([], [], [])
    {
      this.oracle := oracle;
      trace := Trace([], [], []);
    }

    /** `requests.get(url)` of the listing page, and its `.views-row` rows. */
    method FetchListing(url: string) returns (rows: seq<Row>)
      modifies this
      ensures rows == oracle.listing(|old(trace.listingRequests)|)
      ensures trace == old(trace).(listingRequests := old(trace.listingRequests) + [url])
    {
      rows := oracle.listing(|trace.listingRequests|);
      trace := trace.(listingRequests := trace.listingRequests + [url]);
    }

    /** `get_action_details(url)`: the page text, or `None` when the request fails. */
    method FetchPage(url: string) returns (page: Option<string>)
      modifies this
      ensures page == oracle.page(|old(trace.pageRequests)|)
      ensures trace == WithRequest(old(trace), url)
    {
      page := oracle.page(|trace.pageRequests|);
      trace := WithRequest(trace, url);
    }

    /** Hands one mail to the SMTP server; whether it was delivered. */
    method SendMail(mail: Mail) returns (ok: bool)
      modifies this
      ensures ok == oracle.mailAccepted(|old(trace.mails)|)
      ensures trace == old(trace).(mails := old(trace.mails) + [mail])
    {
      ok := oracle.mailAccepted(|trace.mails|);
      trace := trace.(mails := trace.mails + [mail]);
    }
  }

  // ---------------------------------------------------------------------------
  // The monitor

  class OFACMonitor {
    const config: Config
    var lastCheck: Option<string>
    var knownActions: set<string>
    /** The content of the cache file. */
    var stored: Cache
    /** How many times the cache file was written. */
    ghost var saves: nat

    /** A monitor whose cache was loaded as `cache`. */
    constructor (config: Config, cache: Cache)
      ensures this.config == config && Current() == cache && stored == cache && saves == 0
    {
      this.config := config;
      lastCheck := cache.lastCheck;
      knownActions := cache.knownActions;
      stored := cache;
      saves := 0;
    }

    function Current(): Cache
      reads this
    {
      Cache(lastCheck, knownActions)
    }

    /** `_save_cache()`: the file now holds the cache. */
    method SaveCache()
      modifies this`stored, this`saves
      ensures stored == Current() && saves == old(saves) + 1
    {
      stored := Current();
      saves := saves + 1;
    }

    /** `get_recent_actions()`. */
    method GetRecentActions(web: Web) returns (actions: seq<Action>)
      modifies web
      ensures actions == ListingOf(config, web.oracle, old(web.trace))
      ensures web.trace == WithListingRequest(config, old(web.trace))
    {
      var rows := web.FetchListing(config.recentActionsUrl);
      actions := CollectActions(config.baseUrl, rows);
    }

    /** `_send_email_notification(message, action)`. */
    method SendEmailNotification(web: Web, message: string, action: Action) returns (ok: bool)
      modifies web
      ensures ok == web.oracle.mailAccepted(|old(web.trace.mails)|)
      ensures web.trace == old(web.trace).(mails := old(web.trace.mails) + [Mail(Subject(action), message)])
    {
      ok := web.SendMail(Mail(Subject(action), message));
    }

    /** `send_notification(action, details)`. */
    method SendNotification(web: Web, action: Action, details: string) returns (ok: bool)
      modifies web
      ensures (ok, web.trace) == Notify(config, web.oracle, old(web.trace), action, details)
    {
      var message := Heading;
      message := message + "日期: " + action.date + "\n";
      message := message + "标题: " + action.title + "\n";
      message := message + "链接: " + action.fullUrl + "\n\n";
      assert message == MessageHead(action);
      if details != "" {
        var contentText := web.oracle.plainText(details);
        var contentLines := Split(contentText, '\n');
        var entities := ExtractEntities(contentLines, config.keywords);
        if entities != [] {
          var listed := Join(Take(entities, MaxListed), '\n');
          message := message + EntityHeading + listed;
          if |entities| > MaxListed {
            message := message + "\n" + MoreEntities;
            assert message == MessageHead(action) + (EntityHeading + listed + ("\n" + MoreEntities));
          }
        }
      }
      assert message == Message(action, details, web.oracle.plainText(details), config.keywords);
      if config.channel == "email" {
        ok := SendEmailNotification(web, message, action);
      } else if config.channel == "sms" {
        ok := true;
      } else if config.channel == "wechat" {
        ok := true;
      } else {
        ok := false;
      }
    }

    /** One pass of the loop body of lines 342-358, from the known keys and `new_actions` so far. */
    method VisitAction(web: Web, known: set<string>, newActions: seq<Action>, action: Action)
      returns (known': set<string>, newActions': seq<Action>)
      modifies web
      ensures Progress(known', newActions', web.trace) ==
        Visit(config, web.oracle, Progress(known, newActions, old(web.trace)), action)
    {
      known', newActions' := known, newActions;
      if action.fullUrl !in known {
        var details := web.FetchPage(action.fullUrl);
        if details.Some? && details.value != "" && IsRelated(details.value, config.keywords) {
          var sent := SendNotification(web, action, details.value);
          if sent {
            newActions' := newActions + [action];
            known' := known + {action.fullUrl};
          }
        } else {
          known' := known + {action.fullUrl};
        }
      }
    }

    /** The loop of lines 342-358 over the listed actions, from the known keys `known`. */
    method VisitAll(web: Web, known: set<string>, actions: seq<Action>)
      returns (known': set<string>, newActions: seq<Action>)
      modifies web
      ensures Progress(known', newActions, web.trace) ==
        Scan(config, web.oracle, Progress(known, [], old(web.trace)), actions)
    {
      known', newActions := known, [];
      ghost var start := Progress(known, [], web.trace);
      for i := 0 to |actions|
        invariant Progress(known', newActions, web.trace) == Scan(config, web.oracle, start, actions[..i])
      {
        assert actions[..i + 1][..i] == actions[..i];
        known', newActions := VisitAction(web, known', newActions, actions[i]);
      }
      assert actions[..|actions|] == actions;
    }

    /** `check_for_updates()` at time `now`: the cache, the returned `new_actions`, the trace
        and the number of saves are those `Cycle` gives. */
    method CheckForUpdates(web: Web, now: string) returns (newActions: seq<Action>)
      modifies this, web
      ensures var out := Cycle(config, web.oracle, old(Current()), old(web.trace), now);
        && Current() == out.cache
        && newActions == out.newActions
        && web.trace == out.trace
        && saves == old(saves) + (if out.saved then 1 else 0)
        && stored == (if out.saved then Current() else old(stored))
    {
      ghost var out := Cycle(config, web.oracle, Current(), web.trace, now);
      var actions := GetRecentActions(web);
      if actions == [] {
        newActions := [];
        assert !out.saved;
        return;
      }
      var known;
      known, newActions := VisitAll(web, knownActions, actions);
      lastCheck := Some(now);
      knownActions := known;
      SaveCache();
      assert out.saved && Current() == out.cache;
    }
  }
}
