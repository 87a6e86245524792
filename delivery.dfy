/**
 * The delivery loop of TelegramSender: one attempt per target
 * (send_to_target, with its FloodWait retries), the loop over the collected
 * targets with its stop and message-limit checks (run_mailing), and the
 * counters it keeps (get_stats).
 *
 * The client library is an oracle: for each target a Script says which
 * FloodWait cooldowns the platform signals before its final reply. The log
 * lines the sender hands to its UI callback, together with the sleeps, are
 * recorded as a journal of Events.
 */
module Delivery {

  import opened Wrappers
  import opened TelegramConfig
  import opened RateModel
  import opened Targets

  /** The final answer of send_message for one target. */
  datatype Reply =
    | Accepted
    | PrivacyRestricted          // UserPrivacyRestrictedError
    | NotMutualContact           // UserNotMutualContactError
    | OtherError(name: string)   // any other exception, by type name

  /**
   * The oracle for one target: the FloodWait cooldowns (in seconds) signalled
   * before the final reply, the index random.choice picks among the messages,
   * and the draw of random.random() behind the delay that follows a success.
   */
  datatype Script = Script(floodWaits: seq<nat>, reply: Reply, pick: nat, draw: Fraction)

  /** One line handed to the UI callback; the sleeps are FloodSleep and Pause. */
  datatype Event =
    | TargetsFound(count: nat)
    | Trying(target: Peer, current: nat, total: nat)
    | FloodSleep(seconds: nat)
    | Sent(target: Peer, message: string)
    | Skipped(target: Peer)
    | Failed(target: Peer, error: string)
    | Pause(delay: real)
    | LimitReached
    | SessionClosed

  /** The three counters sent_count, errors_count and skipped_count. */
  datatype Tally = Tally(sent: nat, errors: nat, skipped: nat)

  function Total(t: Tally): nat {
    t.sent + t.errors + t.skipped
  }

  /** The counters and the journal entries one attempt produces. */
  datatype Step = Step(tally: Tally, events: seq<Event>)

  /** Why the loop over the targets ended. */
  datatype Halt = Exhausted | Cancelled | LimitHit

  /** The counters, the journal entries, the index of the first target not attempted, and why. */
  datatype Run = Run(tally: Tally, events: seq<Event>, next: nat, halt: Halt)

  /** get_stats' answer: the counters and the seconds since the run started. */
  datatype Stats = Stats(sent: nat, errors: nat, skipped: nat, duration: int)

  /** The exception random.choice raises on an empty message list. */
  const ChoiceError: string := "IndexError"

  predicate Delivers(cfg: Config, s: Script) {
    |cfg.messages| > 0 && s.reply.Accepted?
  }

  predicate Skips(cfg: Config, s: Script) {
    |cfg.messages| > 0 && (s.reply.PrivacyRestricted? || s.reply.NotMutualContact?)
  }

  predicate Fails(cfg: Config, s: Script) {
    |cfg.messages| == 0 || s.reply.OtherError?
  }

  /** The journal entry that ends an attempt on `target`. */
  function Verdict(cfg: Config, target: Peer, s: Script): (e: Event)
    ensures e.Sent? <==> Delivers(cfg, s)
    ensures e.Skipped? <==> Skips(cfg, s)
    ensures e.Failed? <==> Fails(cfg, s)
    ensures (e.Sent? || e.Skipped? || e.Failed?) && e.target == target
    ensures e.Sent? ==> e.message in cfg.messages
  {
    if |cfg.messages| == 0 then Failed(target, ChoiceError)
    else
      match s.reply
      case Accepted => Sent(target, cfg.messages[s.pick % |cfg.messages|])
      case PrivacyRestricted => Skipped(target)
      case NotMutualContact => Skipped(target)
      case OtherError(name) => Failed(target, name)
  }

  /**
   * send_to_target for the `current`-th of `total` targets. Every try logs
   * itself; a FloodWait sleeps min(seconds, 300) and tries the same target
   * again; an empty message list fails in random.choice; a success is
   * followed by a delay unless it was the last target. The first entry is
   * always the try itself.
   */
  function Attempt(cfg: Config, t: Tally, target: Peer, current: nat, total: nat, s: Script): (r: Step)
    ensures |r.events| >= 2 && r.events[0] == Trying(target, current, total)
    decreases |s.floodWaits|
  {
    var trying := Trying(target, current, total);
    if |cfg.messages| > 0 && |s.floodWaits| > 0 then
      var retry := Attempt(cfg, t, target, current, total, s.(floodWaits := s.floodWaits[1..]));
      Step(retry.tally, [trying, FloodSleep(ForcedWait(s.floodWaits[0]))] + retry.events)
    else if Delivers(cfg, s) then
      var after := t.(sent := t.sent + 1);
      var pause := if current < total then [Pause(CalculateDelay(cfg, after.sent, s.draw))] else [];
      Step(after, [trying, Verdict(cfg, target, s)] + pause)
    else if Skips(cfg, s) then
      Step(t.(skipped := t.skipped + 1), [trying, Verdict(cfg, target, s)])
    else
      Step(t.(errors := t.errors + 1), [trying, Verdict(cfg, target, s)])
  }

  /** The journal of the tries ended by FloodWait: a try and a clamped sleep per cooldown. */
  function Retries(target: Peer, current: nat, total: nat, waits: seq<nat>): (r: seq<Event>)
    ensures |r| == 2 * |waits|
  {
    if waits == [] then []
    else [Trying(target, current, total), FloodSleep(ForcedWait(waits[0]))] + Retries(target, current, total, waits[1..])
  }

  /** The k-th FloodWait of a target is a try of that same target followed by a sleep of min(seconds, 300). */
  lemma {:induction false} RetriesAt(target: Peer, current: nat, total: nat, waits: seq<nat>, k: nat)
    requires k < |waits|
    ensures var r := Retries(target, current, total, waits);
      r[2 * k] == Trying(target, current, total) && r[2 * k + 1] == FloodSleep(ForcedWait(waits[k]))
  {
    if k > 0 {
      RetriesAt(target, current, total, waits[1..], k - 1);
    }
  }

  /**
   * Each attempt moves exactly one counter up by one: sent on success, skipped
   * on a privacy or mutual-contact refusal, errors on anything else. FloodWait
   * retries change no counter.
   */
  lemma {:induction false} AttemptTally(cfg: Config, t: Tally, target: Peer, current: nat, total: nat, s: Script)
    ensures var r := Attempt(cfg, t, target, current, total, s).tally;
      && r.sent == t.sent + (if Delivers(cfg, s) then 1 else 0)
      && r.skipped == t.skipped + (if Skips(cfg, s) then 1 else 0)
      && r.errors == t.errors + (if Fails(cfg, s) then 1 else 0)
      && Total(r) == Total(t) + 1
    decreases |s.floodWaits|
  {
    if |cfg.messages| > 0 && |s.floodWaits| > 0 {
      AttemptTally(cfg, t, target, current, total, s.(floodWaits := s.floodWaits[1..]));
    }
  }

  /**
   * The journal of one attempt: the FloodWait tries with their clamped sleeps
   * (all for the same target, position and total), then the final try and its
   * verdict, then a pause drawn from the delay range for the new send count,
   * present exactly when the target was sent to and was not the last one.
   */
  lemma {:induction false} AttemptTrace(cfg: Config, t: Tally, target: Peer, current: nat, total: nat, s: Script)
    ensures var es := Attempt(cfg, t, target, current, total, s).events;
      var n := if |cfg.messages| > 0 then 2 * |s.floodWaits| else 0;
      var paused := Delivers(cfg, s) && current < total;
      && |es| == n + 2 + (if paused then 1 else 0)
      && (|cfg.messages| > 0 ==> es[..n] == Retries(target, current, total, s.floodWaits))
      && es[n] == Trying(target, current, total)
      && es[n + 1] == Verdict(cfg, target, s)
      && (paused ==> es[n + 2].Pause? && Within(es[n + 2].delay, DelayRange(cfg, t.sent + 1)))
    decreases |s.floodWaits|, 1
  {
    if |cfg.messages| > 0 && |s.floodWaits| > 0 {
      RetryTrace(cfg, t, target, current, total, s);
    }
  }

  lemma {:induction false} RetryTrace(cfg: Config, t: Tally, target: Peer, current: nat, total: nat, s: Script)
    requires |cfg.messages| > 0 && |s.floodWaits| > 0
    ensures var es := Attempt(cfg, t, target, current, total, s).events;
      var n := if |cfg.messages| > 0 then 2 * |s.floodWaits| else 0;
      var paused := Delivers(cfg, s) && current < total;
      && |es| == n + 2 + (if paused then 1 else 0)
      && (|cfg.messages| > 0 ==> es[..n] == Retries(target, current, total, s.floodWaits))
      && es[n] == Trying(target, current, total)
      && es[n + 1] == Verdict(cfg, target, s)
      && (paused ==> es[n + 2].Pause? && Within(es[n + 2].delay, DelayRange(cfg, t.sent + 1)))
    decreases |s.floodWaits|, 0
  {
    var s' := s.(floodWaits := s.floodWaits[1..]);
    AttemptTrace(cfg, t, target, current, total, s');
    var es := Attempt(cfg, t, target, current, total, s).events;
    var rest := Attempt(cfg, t, target, current, total, s').events;
    var head := [Trying(target, current, total), FloodSleep(ForcedWait(s.floodWaits[0]))];
    assert es == head + rest;
    var n' := 2 * |s'.floodWaits|;
    assert s.floodWaits == [s.floodWaits[0]] + s'.floodWaits;
    assert es[..n' + 2] == head + rest[..n'];
  }

  /** The targets an event sequence reports a verdict for, in order. */
  function Outcomes(es: seq<Event>): seq<Peer>
  {
    if es == [] then []
    else (if es[0].Sent? || es[0].Skipped? || es[0].Failed? then [es[0].target] else []) + Outcomes(es[1..])
  }

  lemma {:induction false} OutcomesAppend(a: seq<Event>, b: seq<Event>)
    ensures Outcomes(a + b) == Outcomes(a) + Outcomes(b)
  {
    if a == [] {
      assert a + b == b;
    } else {
      assert (a + b)[0] == a[0];
      assert (a + b)[1..] == a[1..] + b;
      OutcomesAppend(a[1..], b);
      var h := if a[0].Sent? || a[0].Skipped? || a[0].Failed? then [a[0].target] else [];
      assert Outcomes(a + b) == h + Outcomes(a[1..] + b);
      assert h + (Outcomes(a[1..]) + Outcomes(b)) == (h + Outcomes(a[1..])) + Outcomes(b);
    }
  }

  /** An attempt reports exactly one verdict, for its own target. */
  lemma {:induction false} AttemptOutcome(cfg: Config, t: Tally, target: Peer, current: nat, total: nat, s: Script)
    ensures Outcomes(Attempt(cfg, t, target, current, total, s).events) == [target]
    decreases |s.floodWaits|, 1
  {
    if |cfg.messages| > 0 && |s.floodWaits| > 0 {
      RetryOutcome(cfg, t, target, current, total, s);
    } else {
      FinalOutcome(cfg, t, target, current, total, s);
    }
  }

  /** The final try reports its one verdict; the pause after it reports none. */
  lemma FinalOutcome(cfg: Config, t: Tally, target: Peer, current: nat, total: nat, s: Script)
    requires !(|cfg.messages| > 0 && |s.floodWaits| > 0)
    ensures Outcomes(Attempt(cfg, t, target, current, total, s).events) == [target]
  {
    var trying := Trying(target, current, total);
    var es := Attempt(cfg, t, target, current, total, s).events;
    var v := Verdict(cfg, target, s);
    var one: seq<Event> := [v];
    assert one[1..] == [];
    if Delivers(cfg, s) && current < total {
      var p := Pause(CalculateDelay(cfg, t.sent + 1, s.draw));
      var last: seq<Event> := [p];
      assert last[1..] == [];
      assert es == [trying] + (one + last);
      OutcomesAppend([trying], one + last);
      OutcomesAppend(one, last);
    } else {
      assert es == [trying] + one;
      OutcomesAppend([trying], one);
    }
  }

  /** A FloodWait try reports no verdict; the retry reports the one verdict. */
  lemma {:induction false} RetryOutcome(cfg: Config, t: Tally, target: Peer, current: nat, total: nat, s: Script)
    requires |cfg.messages| > 0 && |s.floodWaits| > 0
    ensures Outcomes(Attempt(cfg, t, target, current, total, s).events) == [target]
    decreases |s.floodWaits|, 0
  {
    var s' := s.(floodWaits := s.floodWaits[1..]);
    AttemptOutcome(cfg, t, target, current, total, s');
    var head := [Trying(target, current, total), FloodSleep(ForcedWait(s.floodWaits[0]))];
    OutcomesAppend(head, Attempt(cfg, t, target, current, total, s').events);
    assert Outcomes(head) == [] by {
      assert head[1..][1..] == [];
    }
  }

  /** Every message an event sequence reports as sent is one of `messages`. */
  predicate SentFrom(es: seq<Event>, messages: seq<string>) {
    forall k :: 0 <= k < |es| && es[k].Sent? ==> es[k].message in messages
  }

  lemma AttemptSentFrom(cfg: Config, t: Tally, target: Peer, current: nat, total: nat, s: Script)
    ensures SentFrom(Attempt(cfg, t, target, current, total, s).events, cfg.messages)
  {
    AttemptTrace(cfg, t, target, current, total, s);
    var es := Attempt(cfg, t, target, current, total, s).events;
    var n := if |cfg.messages| > 0 then 2 * |s.floodWaits| else 0;
    forall k | 0 <= k < |es| ensures es[k].Sent? ==> es[k].message in cfg.messages {
      if k < n {
        assert es[k] == es[..n][k];
        RetriesAt(target, current, total, s.floodWaits, k / 2);
        assert k == 2 * (k / 2) || k == 2 * (k / 2) + 1;
        assert !es[k].Sent?;
      }
    }
  }

  /**
   * The loop of run_mailing from index `i`: before each target it stops when a
   * stop request has landed (the request lands before the attempt at `stopAt`)
   * or when a positive message limit has been reached, and otherwise attempts
   * the target as the (i+1)-th of |targets|. It ends having gone through all
   * targets exactly when it was not stopped early.
   */
  function Deliver(cfg: Config, t: Tally, targets: seq<Peer>, plan: nat -> Script, i: nat, stopAt: nat): (r: Run)
    requires i <= |targets|
    ensures i <= r.next <= |targets|
    ensures r.halt == Exhausted <==> r.next == |targets|
    decreases |targets| - i
  {
    if i == |targets| then Run(t, [], i, Exhausted)
    else if stopAt <= i then Run(t, [], i, Cancelled)
    else if cfg.maxMessages > 0 && t.sent >= cfg.maxMessages then Run(t, [LimitReached], i, LimitHit)
    else
      var step := Attempt(cfg, t, targets[i], i + 1, |targets|, plan(i));
      var rest := Deliver(cfg, step.tally, targets, plan, i + 1, stopAt);
      rest.(events := step.events + rest.events)
  }

  /** `r` with `prefix` put in front of its journal entries. */
  function Extend(prefix: seq<Event>, r: Run): Run {
    r.(events := prefix + r.events)
  }

  /** A run whose remainder adds nothing to the journal has exactly `done` as its journal. */
  lemma EndOfRun(whole: Run, done: seq<Event>, rest: Run)
    requires rest.events == [] && whole == Extend(done, rest)
    ensures whole.events == done && whole.tally == rest.tally && whole.halt == rest.halt
  {
    assert done + [] == done;
  }

  lemma AppendAssoc(a: seq<Event>, b: seq<Event>, c: seq<Event>)
    ensures (a + b) + c == a + (b + c)
  {
  }

  lemma ExtendTwice(a: seq<Event>, b: seq<Event>, r: Run)
    ensures Extend(a, Extend(b, r)) == Extend(a + b, r)
  {
    assert a + (b + r.events) == (a + b) + r.events;
  }

  /** One round of the loop, when neither the stop flag nor the limit ends it. */
  lemma DeliverStep(cfg: Config, t: Tally, targets: seq<Peer>, plan: nat -> Script, i: nat, stopAt: nat)
    requires i < |targets| && i < stopAt && !(cfg.maxMessages > 0 && t.sent >= cfg.maxMessages)
    ensures var step := Attempt(cfg, t, targets[i], i + 1, |targets|, plan(i));
      Deliver(cfg, t, targets, plan, i, stopAt) == Extend(step.events, Deliver(cfg, step.tally, targets, plan, i + 1, stopAt))
  {
  }

  /**
   * The loop attempts a contiguous run of targets from `i` on, adds one to
   * exactly one counter per attempted target, attempts nothing at or after the
   * index where the stop request landed, and ends for the reason it reports.
   */
  lemma {:induction false} DeliverProgress(cfg: Config, t: Tally, targets: seq<Peer>, plan: nat -> Script, i: nat, stopAt: nat)
    requires i <= |targets|
    ensures var r := Deliver(cfg, t, targets, plan, i, stopAt);
      && i <= r.next <= |targets|
      && Total(r.tally) == Total(t) + (r.next - i)
      && r.tally.sent >= t.sent && r.tally.errors >= t.errors && r.tally.skipped >= t.skipped
      && (i < r.next ==> r.next <= stopAt)
      && (r.halt == Exhausted ==> r.next == |targets|)
      && (r.halt == Cancelled ==> r.next < |targets| && stopAt <= r.next)
      && (r.halt == LimitHit ==> r.next < |targets| && r.next < stopAt && 0 < cfg.maxMessages <= r.tally.sent)
      && (r.halt == LimitHit ==> r.events != [] && r.events[|r.events| - 1] == LimitReached)
    decreases |targets| - i, 1
  {
    if i < |targets| && i < stopAt && !(cfg.maxMessages > 0 && t.sent >= cfg.maxMessages) {
      DeliverProgressStep(cfg, t, targets, plan, i, stopAt);
    }
  }

  lemma {:induction false} DeliverProgressStep(cfg: Config, t: Tally, targets: seq<Peer>, plan: nat -> Script, i: nat, stopAt: nat)
    requires i < |targets| && i < stopAt && !(cfg.maxMessages > 0 && t.sent >= cfg.maxMessages)
    ensures var r := Deliver(cfg, t, targets, plan, i, stopAt);
      && i <= r.next <= |targets|
      && Total(r.tally) == Total(t) + (r.next - i)
      && r.tally.sent >= t.sent && r.tally.errors >= t.errors && r.tally.skipped >= t.skipped
      && (i < r.next ==> r.next <= stopAt)
      && (r.halt == Exhausted ==> r.next == |targets|)
      && (r.halt == Cancelled ==> r.next < |targets| && stopAt <= r.next)
      && (r.halt == LimitHit ==> r.next < |targets| && r.next < stopAt && 0 < cfg.maxMessages <= r.tally.sent)
      && (r.halt == LimitHit ==> r.events != [] && r.events[|r.events| - 1] == LimitReached)
    decreases |targets| - i, 0
  {
    var step := Attempt(cfg, t, targets[i], i + 1, |targets|, plan(i));
    DeliverStep(cfg, t, targets, plan, i, stopAt);
    AttemptTally(cfg, t, targets[i], i + 1, |targets|, plan(i));
    DeliverProgress(cfg, step.tally, targets, plan, i + 1, stopAt);
  }

  /** The journal reports a verdict for each attempted target, in target order. */
  lemma {:induction false} DeliverOrder(cfg: Config, t: Tally, targets: seq<Peer>, plan: nat -> Script, i: nat, stopAt: nat)
    requires i <= |targets|
    ensures var r := Deliver(cfg, t, targets, plan, i, stopAt);
      i <= r.next <= |targets| && Outcomes(r.events) == targets[i..r.next]
    decreases |targets| - i, 1
  {
    if i < |targets| && i < stopAt && !(cfg.maxMessages > 0 && t.sent >= cfg.maxMessages) {
      DeliverOrderStep(cfg, t, targets, plan, i, stopAt);
    } else if i < |targets| && i < stopAt {
      assert [LimitReached][1..] == [];
    }
  }

  lemma {:induction false} DeliverOrderStep(cfg: Config, t: Tally, targets: seq<Peer>, plan: nat -> Script, i: nat, stopAt: nat)
    requires i < |targets| && i < stopAt && !(cfg.maxMessages > 0 && t.sent >= cfg.maxMessages)
    ensures var r := Deliver(cfg, t, targets, plan, i, stopAt);
      i <= r.next <= |targets| && Outcomes(r.events) == targets[i..r.next]
    decreases |targets| - i, 0
  {
    var step := Attempt(cfg, t, targets[i], i + 1, |targets|, plan(i));
    var rest := Deliver(cfg, step.tally, targets, plan, i + 1, stopAt);
    DeliverStep(cfg, t, targets, plan, i, stopAt);
    AttemptOutcome(cfg, t, targets[i], i + 1, |targets|, plan(i));
    DeliverOrder(cfg, step.tally, targets, plan, i + 1, stopAt);
    OrderStep(Deliver(cfg, t, targets, plan, i, stopAt), step.events, rest, targets, i);
  }

  /** Putting the verdict for target `i` in front of the verdicts for i+1..next. */
  lemma OrderStep(r: Run, head: seq<Event>, rest: Run, targets: seq<Peer>, i: nat)
    requires r == Extend(head, rest)
    requires i + 1 <= rest.next <= |targets|
    requires Outcomes(head) == [targets[i]] && Outcomes(rest.events) == targets[i + 1..rest.next]
    ensures i <= r.next <= |targets| && Outcomes(r.events) == targets[i..r.next]
  {
    OutcomesAppend(head, rest.events);
    assert targets[i..rest.next] == [targets[i]] + targets[i + 1..rest.next];
  }

  lemma {:induction false} DeliverWithinLimit(cfg: Config, t: Tally, targets: seq<Peer>, plan: nat -> Script, i: nat, stopAt: nat)
    requires i <= |targets|
    requires cfg.maxMessages > 0 && t.sent <= cfg.maxMessages
    ensures Deliver(cfg, t, targets, plan, i, stopAt).tally.sent <= cfg.maxMessages
    decreases |targets| - i
  {
    if i < |targets| && i < stopAt && t.sent < cfg.maxMessages {
      var step := Attempt(cfg, t, targets[i], i + 1, |targets|, plan(i));
      AttemptTally(cfg, t, targets[i], i + 1, |targets|, plan(i));
      DeliverWithinLimit(cfg, step.tally, targets, plan, i + 1, stopAt);
    }
  }

  /** Every message the loop reports as sent is one of the configured messages. */
  lemma {:induction false} DeliverSentFrom(cfg: Config, t: Tally, targets: seq<Peer>, plan: nat -> Script, i: nat, stopAt: nat)
    requires i <= |targets|
    ensures SentFrom(Deliver(cfg, t, targets, plan, i, stopAt).events, cfg.messages)
    decreases |targets| - i
  {
    if i < |targets| && i < stopAt && !(cfg.maxMessages > 0 && t.sent >= cfg.maxMessages) {
      var step := Attempt(cfg, t, targets[i], i + 1, |targets|, plan(i));
      AttemptSentFrom(cfg, t, targets[i], i + 1, |targets|, plan(i));
      DeliverSentFrom(cfg, step.tally, targets, plan, i + 1, stopAt);
      var rest := Deliver(cfg, step.tally, targets, plan, i + 1, stopAt);
      var es := step.events + rest.events;
      forall k | 0 <= k < |es| && es[k].Sent? ensures es[k].message in cfg.messages {
        if k >= |step.events| {
          assert es[k] == rest.events[k - |step.events|];
        }
      }
    }
  }

  /** How many of the scripts for indices i..j-1 produce each verdict. */
  function Expected(cfg: Config, plan: nat -> Script, i: nat, j: nat): Tally
    decreases j - i
  {
    if j <= i then Tally(0, 0, 0)
    else
      var rest := Expected(cfg, plan, i + 1, j);
      var s := plan(i);
      Tally(rest.sent + (if Delivers(cfg, s) then 1 else 0),
            rest.errors + (if Fails(cfg, s) then 1 else 0),
            rest.skipped + (if Skips(cfg, s) then 1 else 0))
  }

  /**
   * Without a stop and without a limit every target is attempted, and the
   * counters grow by exactly the number of successes, errors and refusals the
   * platform answered with.
   */
  lemma {:induction false} DeliverCountsOutcomes(cfg: Config, t: Tally, targets: seq<Peer>, plan: nat -> Script, i: nat, stopAt: nat)
    requires i <= |targets| <= stopAt
    requires cfg.maxMessages <= 0
    ensures var r := Deliver(cfg, t, targets, plan, i, stopAt);
      var e := Expected(cfg, plan, i, |targets|);
      && r.next == |targets| && r.halt == Exhausted
      && r.tally == Tally(t.sent + e.sent, t.errors + e.errors, t.skipped + e.skipped)
    decreases |targets| - i
  {
    if i < |targets| {
      var step := Attempt(cfg, t, targets[i], i + 1, |targets|, plan(i));
      AttemptTally(cfg, t, targets[i], i + 1, |targets|, plan(i));
      DeliverCountsOutcomes(cfg, step.tally, targets, plan, i + 1, stopAt);
    }
  }

  /**
   * With a positive limit N, enough targets, no stop and every send
   * succeeding, the loop stops after exactly N successful sends.
   */
  lemma {:induction false} DeliverReachesLimit(cfg: Config, t: Tally, targets: seq<Peer>, plan: nat -> Script, i: nat, stopAt: nat)
    requires i <= |targets| <= stopAt
    requires cfg.maxMessages > 0 && t.sent <= cfg.maxMessages
    requires cfg.maxMessages - t.sent <= |targets| - i
    requires forall k :: i <= k < |targets| ==> Delivers(cfg, plan(k))
    ensures var r := Deliver(cfg, t, targets, plan, i, stopAt);
      r.tally.sent == cfg.maxMessages && r.next == i + (cfg.maxMessages - t.sent)
    decreases |targets| - i
  {
    if i < |targets| && t.sent < cfg.maxMessages {
      var step := Attempt(cfg, t, targets[i], i + 1, |targets|, plan(i));
      AttemptTally(cfg, t, targets[i], i + 1, |targets|, plan(i));
      DeliverReachesLimit(cfg, step.tally, targets, plan, i + 1, stopAt);
    }
  }

  /** TelegramSender: the counters and the stop flag the delivery loop updates in place. */
  class TelegramSender {
    const config: Config
    var isRunning: bool
    var sentCount: nat
    var errorsCount: nat
    var skippedCount: nat
    var startTime: Option<int>
    // What was handed to the UI callback, and the sleeps, in order.
    var journal: seq<Event>

    constructor (config: Config)
      ensures this.config == config
      ensures !isRunning && sentCount == 0 && errorsCount == 0 && skippedCount == 0
      ensures startTime == None && journal == []
    {
      this.config := config;
      isRunning := false;
      sentCount, errorsCount, skippedCount := 0, 0, 0;
      startTime := None;
      journal := [];
    }

    function Counters(): Tally
      reads this
    {
      Tally(sentCount, errorsCount, skippedCount)
    }

    /** send_to_target: the FloodWait retry is the recursive call, as in the source. */
    method SendToTarget(target: Peer, current: nat, total: nat, s: Script)
      modifies this
      ensures Counters() == Attempt(config, old(Counters()), target, current, total, s).tally
      ensures journal == old(journal) + Attempt(config, old(Counters()), target, current, total, s).events
      ensures isRunning == old(isRunning) && startTime == old(startTime)
      decreases |s.floodWaits|
    {
      journal := journal + [Trying(target, current, total)];
      if |config.messages| == 0 {
        // random.choice raises IndexError, which the generic handler counts.
        journal := journal + [Failed(target, ChoiceError)];
        errorsCount := errorsCount + 1;
        return;
      }
      var message := config.messages[s.pick % |config.messages|];
      if |s.floodWaits| > 0 {
        var wait := ForcedWait(s.floodWaits[0]);
        journal := journal + [FloodSleep(wait)];
        SendToTarget(target, current, total, s.(floodWaits := s.floodWaits[1..]));
        return;
      }
      match s.reply
      case Accepted =>
        sentCount := sentCount + 1;
        journal := journal + [Sent(target, message)];
        if current < total {
          var delay := CalculateDelay(config, sentCount, s.draw);
          journal := journal + [Pause(delay)];
        }
      case PrivacyRestricted =>
        journal := journal + [Skipped(target)];
        skippedCount := skippedCount + 1;
      case NotMutualContact =>
        journal := journal + [Skipped(target)];
        skippedCount := skippedCount + 1;
      case OtherError(name) =>
        journal := journal + [Failed(target, name)];
        errorsCount := errorsCount + 1;
    }

    /**
     * run_mailing. `setupOk` is the outcome of setup_client, `contacts` and
     * `dialogs` the answers of the two listing calls, `plan(i)` the script for
     * the i-th attempt, `stopAt` the number of targets started when the stop
     * request from the controlling thread lands, and `now` the clock at start.
     */
    method RunMailing(setupOk: bool, contacts: Fetch, dialogs: Fetch, plan: nat -> Script, stopAt: nat, now: int)
      returns (ok: bool)
      modifies this
      ensures ok == setupOk
      ensures !setupOk ==> Counters() == old(Counters()) && journal == old(journal)
                           && isRunning == old(isRunning) && startTime == old(startTime)
      ensures setupOk ==>
                var targets := Collect(config, contacts, dialogs);
                var r := Deliver(config, old(Counters()), targets, plan, 0, stopAt);
                && startTime == Some(now)
                && Counters() == r.tally
                && journal == old(journal) + [TargetsFound(|targets|)] + r.events + [SessionClosed]
                && isRunning == !r.halt.Cancelled?
    {
      if !setupOk {
        return false;
      }
      isRunning := true;
      startTime := Some(now);
      var targets := CollectTargets(config, contacts, dialogs);
      journal := journal + [TargetsFound(|targets|)];
      ghost var r := DeliverAll(targets, plan, stopAt);
      // disconnect, in the finally clause
      journal := journal + [SessionClosed];
      return true;
    }

    /**
     * The loop of run_mailing over the collected targets (the run has set the
     * stop flag to true before it starts).
     */
    method DeliverAll(targets: seq<Peer>, plan: nat -> Script, stopAt: nat) returns (ghost whole: Run)
      requires isRunning
      modifies this
      ensures whole == Deliver(config, old(Counters()), targets, plan, 0, stopAt)
      ensures Counters() == whole.tally
      ensures journal == old(journal) + whole.events
      ensures isRunning == !whole.halt.Cancelled?
      ensures startTime == old(startTime)
    {
      whole := Deliver(config, Counters(), targets, plan, 0, stopAt);
      ghost var done: seq<Event> := [];
      ghost var rest := whole;
      var i := 0;
      while i < |targets|
        invariant 0 <= i <= |targets|
        invariant isRunning && startTime == old(startTime)
        invariant journal == old(journal) + done
        invariant rest == Deliver(config, Counters(), targets, plan, i, stopAt)
        invariant whole == Extend(done, rest)
      {
        var stop, added, next := Round(targets, plan, i, stopAt);
        ExtendTwice(done, added, next);
        AppendAssoc(old(journal), done, added);
        done := done + added;
        if stop {
          EndOfRun(whole, done, next);
          return;
        }
        rest := next;
        i := i + 1;
      }
      EndOfRun(whole, done, rest);
    }

    /**
     * One pass of the loop body at index `i`: the stop check, the limit check,
     * and otherwise the attempt on the (i+1)-th target. `added` is what it
     * hands to the journal.
     */
    method Round(targets: seq<Peer>, plan: nat -> Script, i: nat, stopAt: nat)
      returns (stop: bool, ghost added: seq<Event>, ghost next: Run)
      requires i < |targets| && isRunning
      modifies this
      ensures startTime == old(startTime) && journal == old(journal) + added
      ensures stop ==> next == Run(Counters(), [], i, if isRunning then LimitHit else Cancelled)
      ensures !stop ==> isRunning && next == Deliver(config, Counters(), targets, plan, i + 1, stopAt)
      ensures Deliver(config, old(Counters()), targets, plan, i, stopAt) == Extend(added, next)
    {
      // The stop request of the controlling thread, observed here only.
      if stopAt <= i {
        isRunning := false;
      }
      if !isRunning {
        return true, [], Run(Counters(), [], i, Cancelled);
      }
      if config.maxMessages > 0 && sentCount >= config.maxMessages {
        journal := journal + [LimitReached];
        return true, [LimitReached], Run(Counters(), [], i, LimitHit);
      }
      added := Attempt(config, Counters(), targets[i], i + 1, |targets|, plan(i)).events;
      DeliverStep(config, Counters(), targets, plan, i, stopAt);
      SendToTarget(targets[i], i + 1, |targets|, plan(i));
      stop, next := false, Deliver(config, Counters(), targets, plan, i + 1, stopAt);
    }

    /** The stop button: clears the flag the loop polls. */
    method Stop()
      modifies this
      ensures !isRunning
      ensures Counters() == old(Counters()) && journal == old(journal) && startTime == old(startTime)
    {
      isRunning := false;
    }

    /** get_stats, with the clock passed in as `now`. */
    method GetStats(now: int) returns (s: Stats)
      ensures s.sent == sentCount && s.errors == errorsCount && s.skipped == skippedCount
      ensures s.duration == (if startTime.Some? then now - startTime.value else 0)
    {
      var duration := 0;
      if startTime.Some? {
        duration := now - startTime.value;
      }
      return Stats(sentCount, errorsCount, skippedCount, duration);
    }
  }
}
