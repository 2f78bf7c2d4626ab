/**
  The bot's mutable state and the two handlers that change it: the global
  dict `user_targets` (main.py:23), the registry branch of `set_precio`
  (main.py:60-78) and one scheduled run of `monitor_prices`
  (main.py:107-120).
 */
module Bot {
  import opened Wrappers
  import opened PyDict
  import opened Quote
  import opened Registry
  import opened Monitor

  class AlertBot {
    /** `user_targets`: chat id -> token symbol -> target price. */
    var userTargets: UserTargets

    ghost predicate Valid()
      reads this
    {
      WellFormed(userTargets)
    }

    /** The bot starts with no targets (line 23). */
    constructor ()
      ensures Valid()
      ensures userTargets == Empty()
    {
      userTargets := Empty();
    }

    /** `/setprecio <price>` sent in chat `user`. `selected` is the token
        chosen earlier with the keyboard, `arg` the parsed argument (None
        when it is missing or not a float), `listed` the symbols
        `get_top_tokens()` returns. The registry changes only when the
        target is stored, and then exactly as `Upsert` says. */
    method SetPrice(user: UserId, selected: Option<Symbol>, arg: Option<Price>, listed: set<Symbol>)
      returns (reply: SetReply)
      requires Valid()
      modifies this
      ensures Valid()
      ensures reply == SetPriceReply(selected, arg, listed)
      ensures reply.Stored? ==> userTargets == Upsert(old(userTargets), user, reply.token, reply.price)
      ensures !reply.Stored? ==> userTargets == old(userTargets)
    {
      if selected.None? || selected.value == "" {
        return SelectFirst;
      }
      var token := selected.value;
      if arg.None? {
        return Usage;
      }
      var price := arg.value;
      if token !in listed {
        return InvalidToken;
      }
      if user !in userTargets.items {
        userTargets := userTargets.Set(user, Empty());
      }
      userTargets := userTargets.Set(user, userTargets.items[user].Set(token, price));
      reply := Stored(token, price);
    }

    /** One scheduled run of `monitor_prices`. `respond(u, t)` is the
        response to the quote request made for user `u` and token `t`;
        `deliver(u, t)` says whether `send_message` for that alert
        succeeds. Returns the steps taken and whether the run ended with
        the RuntimeError that follows a deletion. */
    method MonitorPrices(respond: (UserId, Symbol) -> Response, deliver: (UserId, Symbol) -> bool)
      returns (steps: seq<Step>, aborted: bool)
      requires Valid()
      modifies this
      ensures Valid()
      ensures steps == Trace(Pairs(old(userTargets)), respond, deliver)
      ensures aborted == Stopped(steps)
      ensures userTargets == AfterPass(old(userTargets), respond, deliver)
    {
      steps, aborted := [], false;
      ghost var start := userTargets;
      var users := userTargets.keys;
      var i := 0;
      while i < |users|
        invariant 0 <= i <= |users|
        invariant userTargets == start
        invariant steps == Trace(UserPairs(start, users[..i]), respond, deliver)
        invariant !Stopped(steps)
      {
        var user := users[i];
        assert user in userTargets.items by { assert user in users; }
        WalkNextUser(start, i, user, start.items[user]);
        steps, aborted := MonitorUser(user, respond, deliver, UserPairs(start, users[..i]), steps);
        if aborted {
          // RuntimeError from the inner iterator leaves `monitor_prices`.
          WalkEndsAfterUser(start, i, respond, deliver);
          PairsLookup(start, steps[|steps| - 1].pair);
          return;
        }
        i := i + 1;
      }
      assert users[..i] == users;
    }

    /** The inner `for` of `monitor_prices` (lines 109-120) over the targets
        of `user`, continuing a walk `walked` that produced `steps0`. Its
        steps are the walk extended by this user's triples; if one of them
        is deleted, the loop stops right after it (the RuntimeError). */
    method MonitorUser(user: UserId, respond: (UserId, Symbol) -> Response, deliver: (UserId, Symbol) -> bool,
                       ghost walked: seq<Pair>, steps0: seq<Step>)
      returns (steps: seq<Step>, aborted: bool)
      requires Valid()
      requires user in userTargets.items
      requires steps0 == Trace(walked, respond, deliver) && !Stopped(steps0)
      modifies this
      ensures Valid()
      ensures steps == Trace(walked + UserTargetPairs(old(userTargets), user), respond, deliver)
      ensures aborted == Stopped(steps)
      ensures !aborted ==> userTargets == old(userTargets)
      ensures aborted ==> var p := steps[|steps| - 1].pair;
                          && p.user == user
                          && Lookup(old(userTargets), user, p.token).Some?
                          && userTargets == Remove(old(userTargets), user, p.token)
    {
      var targets := userTargets.items[user];
      var met;
      steps, met := WalkTargets(user, targets, respond, deliver, walked, steps0);
      aborted := met.Some?;
      if aborted {
        // `del user_targets[user_id][token]`; the next step of the inner
        // iterator raises RuntimeError, which ends the loop.
        DeleteTarget(user, met.value);
      }
    }

    /** Line 118, `del user_targets[user_id][token]`, for a stored target. */
    method DeleteTarget(user: UserId, token: Symbol)
      requires Valid() && Lookup(userTargets, user, token).Some?
      modifies this
      ensures Valid()
      ensures userTargets == Remove(old(userTargets), user, token)
    {
      userTargets := userTargets.Set(user, userTargets.items[user].Del(token));
    }
  }

  /** The inner `for` of `monitor_prices` (lines 109-120) over the targets
      `targets` of `user`, up to and including the first alert sent. `met`
      is the token of that alert, the one the loop then deletes. */
  method WalkTargets(user: UserId, targets: Targets,
                     respond: (UserId, Symbol) -> Response, deliver: (UserId, Symbol) -> bool,
                     ghost walked: seq<Pair>, steps0: seq<Step>)
    returns (steps: seq<Step>, met: Option<Symbol>)
    requires targets.Valid()
    requires steps0 == Trace(walked, respond, deliver) && !Stopped(steps0)
    ensures steps == Trace(walked + TokenPairs(user, targets.keys, targets.items), respond, deliver)
    ensures met.Some? == Stopped(steps)
    ensures met.Some? ==> met.value in targets.items
                          && steps[|steps| - 1].pair == Pair(user, met.value, targets.items[met.value])
  {
    steps, met := steps0, None;
    assert walked + TokenPairs(user, targets.keys[..0], targets.items) == walked;
    var j := 0;
    while j < |targets.keys|
      invariant 0 <= j <= |targets.keys|
      invariant steps == Trace(walked + TokenPairs(user, targets.keys[..j], targets.items), respond, deliver)
      invariant !Stopped(steps)
    {
      var token := targets.keys[j];
      assert token in targets.keys;
      var p := Pair(user, token, targets.items[token]);
      var outcome := CheckTarget(p, respond, deliver);
      TokenPrefixStep(user, targets, j);
      TraceStep(walked + TokenPairs(user, targets.keys[..j], targets.items), p, respond, deliver);
      Regroup(walked, TokenPairs(user, targets.keys[..j], targets.items), [p]);
      steps := steps + [Step(p, outcome)];
      if outcome.Alerted? {
        met := Some(token);
        WalkEndsInUser(walked, user, targets, j, respond, deliver);
        return;
      }
      j := j + 1;
    }
    assert targets.keys[..j] == targets.keys;
  }

  /** Lines 111-116 for one triple: request the quote, compare it with the
      target and, when the target is met, send the alert. The outcome is
      the one `Evaluate` specifies. */
  method CheckTarget(p: Pair, respond: (UserId, Symbol) -> Response, deliver: (UserId, Symbol) -> bool)
    returns (outcome: Outcome)
    ensures outcome == StepOf(p, respond, deliver).outcome
  {
    var current := Read(FetchPrice(respond(p.user, p.token), p.token));
    if current.Current? && current.price >= p.target {
      var sent := deliver(p.user, p.token);
      if sent {
        outcome := Alerted(current.price);
      } else {
        // `send_message` raised; logged at line 120
        outcome := SendFailed(current.price);
      }
    } else if current.Failed? {
      // an exception from `get_token_price` or from `>=`; logged at line 120
      outcome := QuoteError;
    } else if current.Unavailable? {
      outcome := NoQuote;
    } else {
      outcome := Below(current.price);
    }
  }

  /** One more step of the walk, when the walk so far has not ended the pass. */
  lemma TraceStep(done: seq<Pair>, p: Pair, respond: (UserId, Symbol) -> Response, deliver: (UserId, Symbol) -> bool)
    requires !Stopped(Trace(done, respond, deliver))
    ensures Trace(done + [p], respond, deliver) == Trace(done, respond, deliver) + [StepOf(p, respond, deliver)]
  {
    TraceAppendRunning(done, [p], respond, deliver);
    assert Trace([p], respond, deliver) == [StepOf(p, respond, deliver)];
  }

  /** The walk after `j` tokens of a user and one more token. */
  lemma TokenPrefixStep(user: UserId, targets: Targets, j: nat)
    requires targets.Valid() && j < |targets.keys|
    ensures TokenPairs(user, targets.keys[..j + 1], targets.items)
         == TokenPairs(user, targets.keys[..j], targets.items)
            + [Pair(user, targets.keys[j], targets.items[targets.keys[j]])]
  {
    assert targets.keys[..j + 1] == targets.keys[..j] + [targets.keys[j]];
    assert targets.keys[j] in targets.keys;
    TokenPairsAppend(user, targets.keys[..j], [targets.keys[j]], targets.items);
  }
}
