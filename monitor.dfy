/**
  One run of `monitor_prices` (main.py:107-120), stated as functions of the
  registry it starts from, the response each quote request gets and whether
  each alert is delivered.

  The pass walks every (user, token, target) triple in dict order and
  requests a quote for each triple, with no de-duplication by token. A
  target is deleted only after its alert was sent. A failed send is caught
  by the `except` at line 119, so the target stays. The `del` at line 118
  shrinks the dict that the inner `for` iterates, so CPython raises
  RuntimeError at that iterator's next step. That step is in the loop
  header, outside the `try`, so the pass ends there. A pass therefore
  removes at most one target.
 */
module Monitor {
  import opened Wrappers
  import opened PyDict
  import opened Quote
  import opened Registry

  /** One registered target, in iteration order. */
  datatype Pair = Pair(user: UserId, token: Symbol, target: Price)

  /** How `current_price` behaves in `current_price is not None and current_price >= target_price`. */
  datatype Reading =
    | Unavailable         // `None`: the test is false
    | Failed              // an exception: raised in `get_token_price`, or by `>=` on a non-number
    | Current(price: real)

  /** What happened to one triple in the pass; every outcome but `Alerted`
      leaves the target where it is. */
  datatype Outcome =
    | NoQuote             // no price, nothing else done
    | QuoteError          // exception caught and logged at lines 119-120
    | Below(current: real)
    | SendFailed(current: real)  // target met, `send_message` raised, logged at line 120
    | Alerted(current: real)     // target met, alert sent, target deleted (line 118)

  datatype Step = Step(pair: Pair, outcome: Outcome)

  /** The comparison at line 112 given what `get_token_price` did. A JSON
      `null` price is `None` too; a JSON bool compares as 0 or 1; a string,
      list or object makes `>=` raise TypeError. */
  function Read(f: Fetched): (r: Reading)
    ensures r.Unavailable? <==> f.Missing? || f == Value(JNull)
    ensures r.Failed? <==> f.Raised? || (f.Value? && !(f.v.JNull? || f.v.JNumber? || f.v.JBool?))
    ensures f.Value? && f.v.JNumber? ==> r == Current(f.v.n)
    ensures f.Value? && f.v.JBool? ==> r == Current(if f.v.b then 1.0 else 0.0)
  {
    match f
    case Raised => Failed
    case Missing => Unavailable
    case Value(v) =>
      match v
      case JNull => Unavailable
      case JNumber(n) => Current(n)
      case JBool(b) => Current(if b then 1.0 else 0.0)
      case _ => Failed
  }

  /** Lines 110-120 for one triple, given the response to its quote request
      and whether the alert would be delivered. */
  function Evaluate(p: Pair, resp: Response, delivered: bool): (o: Outcome)
    ensures o.Alerted? <==> Read(FetchPrice(resp, p.token)).Current?
                            && Read(FetchPrice(resp, p.token)).price >= p.target && delivered
    ensures o.SendFailed? <==> Read(FetchPrice(resp, p.token)).Current?
                               && Read(FetchPrice(resp, p.token)).price >= p.target && !delivered
    ensures Read(FetchPrice(resp, p.token)).Unavailable? ==> o == NoQuote
    ensures Read(FetchPrice(resp, p.token)).Failed? ==> o == QuoteError
    ensures Read(FetchPrice(resp, p.token)).Current? ==>
              && (o.Below? || o.SendFailed? || o.Alerted?)
              && o.current == Read(FetchPrice(resp, p.token)).price
              && (o.Below? <==> Read(FetchPrice(resp, p.token)).price < p.target)
    ensures FetchPrice(resp, p.token).Missing? ==> o == NoQuote
    ensures FetchPrice(resp, p.token).Raised? ==> o == QuoteError
  {
    match Read(FetchPrice(resp, p.token))
    case Unavailable => NoQuote
    case Failed => QuoteError
    case Current(c) =>
      if c >= p.target then (if delivered then Alerted(c) else SendFailed(c))
      else Below(c)
  }

  /** The step for one triple, asking the oracles about that triple. */
  function StepOf(p: Pair, respond: (UserId, Symbol) -> Response, deliver: (UserId, Symbol) -> bool): Step {
    Step(p, Evaluate(p, respond(p.user, p.token), deliver(p.user, p.token)))
  }

  /** The pass has ended with a deletion (and so with RuntimeError). */
  predicate Stopped(steps: seq<Step>) {
    |steps| > 0 && steps[|steps| - 1].outcome.Alerted?
  }

  /** The triples of one user's inner dict, for the tokens `ks`, in that order. */
  function TokenPairs(u: UserId, ks: seq<Symbol>, m: map<Symbol, Price>): (ps: seq<Pair>)
    requires forall k :: k in ks ==> k in m
    ensures |ps| == |ks|
  {
    if ks == [] then [] else [Pair(u, ks[0], m[ks[0]])] + TokenPairs(u, ks[1..], m)
  }

  /** The triples of one user (none for a user without an entry). */
  function UserTargetPairs(r: UserTargets, u: UserId): seq<Pair>
    requires WellFormed(r)
  {
    if u in r.items then TokenPairs(u, r.items[u].keys, r.items[u].items) else []
  }

  /** The triples of the users `us`, user by user. */
  function UserPairs(r: UserTargets, us: seq<UserId>): seq<Pair>
    requires WellFormed(r)
  {
    if us == [] then [] else UserTargetPairs(r, us[0]) + UserPairs(r, us[1..])
  }

  /** Every triple of the registry in the order of the two nested `for` loops. */
  function Pairs(r: UserTargets): seq<Pair>
    requires WellFormed(r)
  {
    UserPairs(r, r.keys)
  }

  /** The steps the pass takes over `ps`: one per triple, in order, up to
      and including the first deletion. */
  function Trace(ps: seq<Pair>, respond: (UserId, Symbol) -> Response, deliver: (UserId, Symbol) -> bool): (steps: seq<Step>)
    ensures |steps| <= |ps|
    ensures forall i :: 0 <= i < |steps| ==> steps[i] == StepOf(ps[i], respond, deliver)
    ensures forall i :: 0 <= i < |steps| - 1 ==> !steps[i].outcome.Alerted?
    ensures |steps| < |ps| ==> Stopped(steps)
    decreases |ps|
  {
    if ps == [] then []
    else
      var s := StepOf(ps[0], respond, deliver);
      if s.outcome.Alerted? then [s] else [s] + Trace(ps[1..], respond, deliver)
  }

  /** The registry after the pass: the triple of the final step is deleted
      if that step was a deletion. */
  function AfterPass(r: UserTargets, respond: (UserId, Symbol) -> Response, deliver: (UserId, Symbol) -> bool): (r': UserTargets)
    requires WellFormed(r)
    ensures WellFormed(r')
  {
    var steps := Trace(Pairs(r), respond, deliver);
    if Stopped(steps) then
      var p := steps[|steps| - 1].pair;
      PairsLookup(r, p);
      Remove(r, p.user, p.token)
    else r
  }

  // ---------------------------------------------------------------------
  // Lemmas about the enumeration of triples

  /** The `i`-th triple of a user is the `i`-th token with its target. */
  lemma {:induction false} TokenPairsAt(u: UserId, ks: seq<Symbol>, m: map<Symbol, Price>, i: nat)
    requires forall k :: k in ks ==> k in m
    requires i < |ks|
    ensures ks[i] in m && TokenPairs(u, ks, m)[i] == Pair(u, ks[i], m[ks[i]])
  {
    assert ks[i] in ks;
    if i > 0 {
      TokenPairsAt(u, ks[1..], m, i - 1);
    }
  }

  lemma {:induction false} TokenPairsMember(u: UserId, ks: seq<Symbol>, m: map<Symbol, Price>, p: Pair)
    requires forall k :: k in ks ==> k in m
    ensures p in TokenPairs(u, ks, m) <==> p.user == u && p.token in ks && p.target == m[p.token]
  {
    var ps := TokenPairs(u, ks, m);
    if p.user == u && p.token in ks && p.target == m[p.token] {
      var i :| 0 <= i < |ks| && ks[i] == p.token;
      TokenPairsAt(u, ks, m, i);
      assert ps[i] == p;
    }
    if p in ps {
      var i :| 0 <= i < |ps| && ps[i] == p;
      TokenPairsAt(u, ks, m, i);
    }
  }

  lemma {:induction false} UserPairsMember(r: UserTargets, us: seq<UserId>, p: Pair)
    requires WellFormed(r)
    ensures p in UserPairs(r, us) <==> p.user in us && Lookup(r, p.user, p.token) == Some(p.target)
    decreases |us|
  {
    if us != [] {
      var u := us[0];
      if u in r.items {
        TokenPairsMember(u, r.items[u].keys, r.items[u].items, p);
      }
      UserPairsMember(r, us[1..], p);
      assert p.user in us <==> p.user == us[0] || p.user in us[1..];
    }
  }

  /** The enumeration lists exactly the stored targets. */
  lemma PairsLookup(r: UserTargets, p: Pair)
    requires WellFormed(r)
    ensures p in Pairs(r) <==> Lookup(r, p.user, p.token) == Some(p.target)
  {
    UserPairsMember(r, r.keys, p);
  }

  // ---------------------------------------------------------------------
  // Lemmas about the pass

  /** What the pass does to the registry: if it ended with a deletion, the
      final step's target is gone and nothing else changed; otherwise
      nothing changed. No target is added, no stored price changes and no
      user entry is removed, even when its inner dict becomes empty. */
  lemma PassEffect(r: UserTargets, respond: (UserId, Symbol) -> Response, deliver: (UserId, Symbol) -> bool)
    requires WellFormed(r)
    ensures var after := AfterPass(r, respond, deliver);
            var steps := Trace(Pairs(r), respond, deliver);
            && WellFormed(after)
            && after.keys == r.keys && after.items.Keys == r.items.Keys
            && (!Stopped(steps) ==> after == r)
            && (Stopped(steps) ==>
                  var p := steps[|steps| - 1].pair;
                  && Lookup(r, p.user, p.token) == Some(p.target)
                  && Lookup(after, p.user, p.token) == None
                  && forall u, t :: (u, t) != (p.user, p.token) ==> Lookup(after, u, t) == Lookup(r, u, t))
  {
    var steps := Trace(Pairs(r), respond, deliver);
    if Stopped(steps) {
      PairsLookup(r, steps[|steps| - 1].pair);
    }
  }

  // ---------------------------------------------------------------------
  // Each (user, token) occurs once in the enumeration

  /** The dict key of a triple. */
  function Key(p: Pair): (UserId, Symbol) {
    (p.user, p.token)
  }

  ghost predicate UniqueKeys(ps: seq<Pair>) {
    forall i, j :: 0 <= i < j < |ps| ==> Key(ps[i]) != Key(ps[j])
  }

  lemma TokenPairsUnique(u: UserId, ks: seq<Symbol>, m: map<Symbol, Price>)
    requires forall k :: k in ks ==> k in m
    requires Distinct(ks)
    ensures UniqueKeys(TokenPairs(u, ks, m))
  {
    var ps := TokenPairs(u, ks, m);
    forall i, j | 0 <= i < j < |ps| ensures Key(ps[i]) != Key(ps[j]) {
      TokenPairsAt(u, ks, m, i);
      TokenPairsAt(u, ks, m, j);
    }
  }

  lemma ConcatUnique(a: seq<Pair>, b: seq<Pair>)
    requires UniqueKeys(a) && UniqueKeys(b)
    requires forall x, y :: x in a && y in b ==> Key(x) != Key(y)
    ensures UniqueKeys(a + b)
  {
    var all := a + b;
    forall i, j | 0 <= i < j < |all| ensures Key(all[i]) != Key(all[j]) {
      if j < |a| {
        assert all[i] == a[i] && all[j] == a[j];
      } else if i >= |a| {
        assert all[i] == b[i - |a|] && all[j] == b[j - |a|];
      } else {
        assert all[i] == a[i] && a[i] in a;
        assert all[j] == b[j - |a|] && b[j - |a|] in b;
      }
    }
  }

  lemma {:induction false} UserPairsUnique(r: UserTargets, us: seq<UserId>)
    requires WellFormed(r)
    requires Distinct(us)
    ensures UniqueKeys(UserPairs(r, us))
    decreases |us|
  {
    if us != [] {
      var u := us[0];
      var head := UserTargetPairs(r, u);
      var tail := UserPairs(r, us[1..]);
      UserPairsUnique(r, us[1..]);
      if u in r.items {
        TokenPairsUnique(u, r.items[u].keys, r.items[u].items);
      }
      forall x, y | x in head && y in tail ensures Key(x) != Key(y) {
        UserPairsMember(r, us[1..], y);
        TokenPairsMember(u, r.items[u].keys, r.items[u].items, x);
        assert u !in us[1..];
      }
      ConcatUnique(head, tail);
    }
  }

  /** No (user, token) pair is enumerated twice. */
  lemma PairsUnique(r: UserTargets)
    requires WellFormed(r)
    ensures UniqueKeys(Pairs(r))
  {
    UserPairsUnique(r, r.keys);
  }

  /** The triple at position `i` is the first one met and delivered. */
  predicate FirstAlert(ps: seq<Pair>, respond: (UserId, Symbol) -> Response, deliver: (UserId, Symbol) -> bool, i: nat)
    requires i < |ps|
  {
    && StepOf(ps[i], respond, deliver).outcome.Alerted?
    && forall j :: 0 <= j < i ==> !StepOf(ps[j], respond, deliver).outcome.Alerted?
  }

  /** The pass ends with a deletion exactly at the first triple met and delivered. */
  lemma {:induction false} TraceStopsAtFirstAlert(ps: seq<Pair>, respond: (UserId, Symbol) -> Response, deliver: (UserId, Symbol) -> bool, i: nat)
    requires i < |ps|
    ensures var steps := Trace(ps, respond, deliver);
            FirstAlert(ps, respond, deliver, i) <==> Stopped(steps) && |steps| - 1 == i
  {
    var steps := Trace(ps, respond, deliver);
    if FirstAlert(ps, respond, deliver, i) {
      assert steps[i] == StepOf(ps[i], respond, deliver);
    }
  }

  /** The pass deletes the triple at position `i` of the enumeration exactly
      when that triple's target is met and its alert delivered, and no
      earlier triple's was: the first such triple, and only it. Ties count
      as met. */
  lemma PassRemovesFirstMet(r: UserTargets, respond: (UserId, Symbol) -> Response, deliver: (UserId, Symbol) -> bool, i: nat)
    requires WellFormed(r)
    requires i < |Pairs(r)|
    ensures var ps := Pairs(r);
            (Lookup(AfterPass(r, respond, deliver), ps[i].user, ps[i].token) == None)
              <==> FirstAlert(ps, respond, deliver, i)
  {
    var ps := Pairs(r);
    var steps := Trace(ps, respond, deliver);
    var after := AfterPass(r, respond, deliver);
    TraceStopsAtFirstAlert(ps, respond, deliver, i);
    assert ps[i] in ps;
    PairsLookup(r, ps[i]);
    if Stopped(steps) {
      var k := |steps| - 1;
      var p := steps[k].pair;
      assert p == ps[k];
      PairsLookup(r, p);
      assert after == Remove(r, p.user, p.token);
      if k != i {
        PairsUnique(r);
        assert Key(ps[k]) != Key(ps[i]);
      }
    }
  }

  /** A target whose alert cannot be delivered survives the pass. */
  lemma FailedSendKeepsTarget(r: UserTargets, respond: (UserId, Symbol) -> Response, deliver: (UserId, Symbol) -> bool, u: UserId, t: Symbol)
    requires WellFormed(r)
    requires !deliver(u, t)
    ensures Lookup(AfterPass(r, respond, deliver), u, t) == Lookup(r, u, t)
  {
    var steps := Trace(Pairs(r), respond, deliver);
    PassEffect(r, respond, deliver);
    if Stopped(steps) {
      var p := steps[|steps| - 1].pair;
      assert steps[|steps| - 1] == StepOf(Pairs(r)[|steps| - 1], respond, deliver);
      assert Key(p) != (u, t);
    }
  }

  /** A target whose quote is missing, raises, or is below it survives the pass. */
  lemma UnmetTargetKept(r: UserTargets, respond: (UserId, Symbol) -> Response, deliver: (UserId, Symbol) -> bool, u: UserId, t: Symbol, target: Price)
    requires WellFormed(r)
    requires Lookup(r, u, t) == Some(target)
    requires !Read(FetchPrice(respond(u, t), t)).Current? || Read(FetchPrice(respond(u, t), t)).price < target
    ensures Lookup(AfterPass(r, respond, deliver), u, t) == Some(target)
  {
    var steps := Trace(Pairs(r), respond, deliver);
    PassEffect(r, respond, deliver);
    if Stopped(steps) {
      var p := steps[|steps| - 1].pair;
      assert steps[|steps| - 1] == StepOf(Pairs(r)[|steps| - 1], respond, deliver);
      PairsLookup(r, p);
      assert Key(p) != (u, t);
    }
  }

  // ---------------------------------------------------------------------
  // What the next pass sees

  /** `ps` without the triples stored under `key`. */
  function DropKey(ps: seq<Pair>, key: (UserId, Symbol)): seq<Pair> {
    if ps == [] then []
    else (if Key(ps[0]) == key then [] else [ps[0]]) + DropKey(ps[1..], key)
  }

  lemma {:induction false} DropKeyAppend(a: seq<Pair>, b: seq<Pair>, key: (UserId, Symbol))
    ensures DropKey(a + b, key) == DropKey(a, key) + DropKey(b, key)
  {
    if a != [] {
      assert (a + b)[1..] == a[1..] + b;
      DropKeyAppend(a[1..], b, key);
    } else {
      assert a + b == b;
    }
  }

  lemma {:induction false} DropKeyAbsent(ps: seq<Pair>, key: (UserId, Symbol))
    requires forall i :: 0 <= i < |ps| ==> Key(ps[i]) != key
    ensures DropKey(ps, key) == ps
  {
    if ps != [] {
      DropKeyAbsent(ps[1..], key);
    }
  }

  lemma {:induction false} DropKeyAt(ps: seq<Pair>, i: nat)
    requires i < |ps|
    requires UniqueKeys(ps)
    ensures DropKey(ps, Key(ps[i])) == ps[..i] + ps[i + 1..]
  {
    if i == 0 {
      DropKeyAbsent(ps[1..], Key(ps[0]));
    } else {
      DropKeyAt(ps[1..], i - 1);
      assert ps[1..][i - 1] == ps[i];
      assert ps[..i] == [ps[0]] + ps[1..][..i - 1];
      assert ps[i + 1..] == ps[1..][i..];
    }
  }

  lemma {:induction false} TokenPairsWithout(u: UserId, ks: seq<Symbol>, m: map<Symbol, Price>, t: Symbol)
    requires forall k :: k in ks ==> k in m
    ensures forall k :: k in Without(ks, t) ==> k in m - {t}
    ensures TokenPairs(u, Without(ks, t), m - {t}) == DropKey(TokenPairs(u, ks, m), (u, t))
  {
    if ks != [] {
      var k := ks[0];
      assert k in ks;
      var rest := Without(ks[1..], t);
      TokenPairsWithout(u, ks[1..], m, t);
      var tps := TokenPairs(u, ks, m);
      assert tps[0] == Pair(u, k, m[k]);
      assert tps[1..] == TokenPairs(u, ks[1..], m);
      if k == t {
        assert Without(ks, t) == rest;
      } else {
        var w := [k] + rest;
        assert Without(ks, t) == w;
        assert w[0] == k && w[1..] == rest;
        assert TokenPairs(u, w, m - {t}) == [Pair(u, k, m[k])] + TokenPairs(u, rest, m - {t});
      }
    }
  }

  lemma {:induction false} DropOtherUser(v: UserId, ks: seq<Symbol>, m: map<Symbol, Price>, key: (UserId, Symbol))
    requires forall k :: k in ks ==> k in m
    requires key.0 != v
    ensures DropKey(TokenPairs(v, ks, m), key) == TokenPairs(v, ks, m)
  {
    if ks != [] {
      assert ks[0] in ks;
      DropOtherUser(v, ks[1..], m, key);
    }
  }

  /** One user's triples after `Remove(r, u, t)`. */
  lemma UserTargetPairsRemove(r: UserTargets, v: UserId, u: UserId, t: Symbol)
    requires WellFormed(r)
    requires Lookup(r, u, t).Some?
    ensures UserTargetPairs(Remove(r, u, t), v) == DropKey(UserTargetPairs(r, v), (u, t))
  {
    var r' := Remove(r, u, t);
    if v == u {
      var inner := r.items[u];
      TokenPairsWithout(u, inner.keys, inner.items, t);
      assert r'.items[u] == inner.Del(t);
    } else if v in r.items {
      assert r'.items[v] == r.items[v];
      DropOtherUser(v, r.items[v].keys, r.items[v].items, (u, t));
    }
  }

  lemma {:induction false} UserPairsRemove(r: UserTargets, us: seq<UserId>, u: UserId, t: Symbol)
    requires WellFormed(r)
    requires Lookup(r, u, t).Some?
    ensures UserPairs(Remove(r, u, t), us) == DropKey(UserPairs(r, us), (u, t))
    decreases |us|
  {
    if us != [] {
      UserPairsRemove(r, us[1..], u, t);
      UserTargetPairsRemove(r, us[0], u, t);
      DropKeyAppend(UserTargetPairs(r, us[0]), UserPairs(r, us[1..]), (u, t));
    }
  }

  /** The next pass enumerates what this one did, in the same order, less
      the deleted triple if there was one. So the triples after the deleted
      one are examined again by the next pass, and a stored target is never
      duplicated or reordered. */
  lemma PassKeepsOrder(r: UserTargets, respond: (UserId, Symbol) -> Response, deliver: (UserId, Symbol) -> bool)
    requires WellFormed(r)
    ensures var ps := Pairs(r);
            var steps := Trace(ps, respond, deliver);
            var after := AfterPass(r, respond, deliver);
            && (!Stopped(steps) ==> Pairs(after) == ps)
            && (Stopped(steps) ==> Pairs(after) == ps[..|steps| - 1] + ps[|steps|..])
  {
    var ps := Pairs(r);
    var steps := Trace(ps, respond, deliver);
    PassEffect(r, respond, deliver);
    if Stopped(steps) {
      var k := |steps| - 1;
      var p := steps[k].pair;
      assert p == ps[k];
      PairsLookup(r, p);
      UserPairsRemove(r, r.keys, p.user, p.token);
      PairsUnique(r);
      DropKeyAt(ps, k);
    }
  }

  // ---------------------------------------------------------------------
  // Splitting the enumeration, as the nested loops walk it

  /** Once the walk over `a` has ended the pass, nothing after `a` is examined. */
  lemma {:induction false} TraceAppendStopped(a: seq<Pair>, b: seq<Pair>, respond: (UserId, Symbol) -> Response, deliver: (UserId, Symbol) -> bool)
    requires Stopped(Trace(a, respond, deliver))
    ensures Trace(a + b, respond, deliver) == Trace(a, respond, deliver)
    decreases |a|
  {
    assert (a + b)[0] == a[0] && (a + b)[1..] == a[1..] + b;
    if !StepOf(a[0], respond, deliver).outcome.Alerted? {
      TraceAppendStopped(a[1..], b, respond, deliver);
    }
  }

  /** While the walk over `a` has not ended the pass, walking `a + b` is
      walking `a` and then `b`. */
  lemma {:induction false} TraceAppendRunning(a: seq<Pair>, b: seq<Pair>, respond: (UserId, Symbol) -> Response, deliver: (UserId, Symbol) -> bool)
    requires !Stopped(Trace(a, respond, deliver))
    ensures Trace(a + b, respond, deliver) == Trace(a, respond, deliver) + Trace(b, respond, deliver)
    decreases |a|
  {
    if a == [] {
      assert a + b == b;
    } else {
      var s := StepOf(a[0], respond, deliver);
      var rest := Trace(a[1..], respond, deliver);
      assert !s.outcome.Alerted? && Trace(a, respond, deliver) == [s] + rest;
      assert !Stopped(rest);
      assert (a + b)[0] == a[0] && (a + b)[1..] == a[1..] + b;
      assert Trace(a + b, respond, deliver) == [s] + Trace(a[1..] + b, respond, deliver);
      TraceAppendRunning(a[1..], b, respond, deliver);
      Regroup([s], rest, Trace(b, respond, deliver));
    }
  }

  lemma {:induction false} TokenPairsAppend(u: UserId, a: seq<Symbol>, b: seq<Symbol>, m: map<Symbol, Price>)
    requires forall k :: k in a ==> k in m
    requires forall k :: k in b ==> k in m
    ensures forall k :: k in a + b ==> k in m
    ensures TokenPairs(u, a + b, m) == TokenPairs(u, a, m) + TokenPairs(u, b, m)
    decreases |a|
  {
    if a == [] {
      assert a + b == b;
    } else {
      assert (a + b)[0] == a[0] && (a + b)[1..] == a[1..] + b;
      assert a[0] in a;
      TokenPairsAppend(u, a[1..], b, m);
    }
  }

  lemma {:induction false} UserPairsAppend(r: UserTargets, a: seq<UserId>, b: seq<UserId>)
    requires WellFormed(r)
    ensures UserPairs(r, a + b) == UserPairs(r, a) + UserPairs(r, b)
    decreases |a|
  {
    if a == [] {
      assert a + b == b;
    } else {
      assert (a + b)[0] == a[0] && (a + b)[1..] == a[1..] + b;
      UserPairsAppend(r, a[1..], b);
    }
  }

  lemma TokenPairsSplit(u: UserId, t: Targets, j: nat)
    requires t.Valid() && j <= |t.keys|
    ensures TokenPairs(u, t.keys, t.items)
         == TokenPairs(u, t.keys[..j], t.items) + TokenPairs(u, t.keys[j..], t.items)
  {
    assert t.keys == t.keys[..j] + t.keys[j..];
    TokenPairsAppend(u, t.keys[..j], t.keys[j..], t.items);
  }

  lemma UserPairsSplit(r: UserTargets, i: nat)
    requires WellFormed(r) && i < |r.keys|
    ensures Pairs(r) == UserPairs(r, r.keys[..i]) + (UserTargetPairs(r, r.keys[i]) + UserPairs(r, r.keys[i + 1..]))
  {
    var us := r.keys;
    assert us == us[..i] + ([us[i]] + us[i + 1..]);
    UserPairsAppend(r, us[..i], [us[i]] + us[i + 1..]);
    UserPairsAppend(r, [us[i]], us[i + 1..]);
  }

  lemma Regroup<T>(a: seq<T>, b: seq<T>, c: seq<T>)
    ensures a + (b + c) == (a + b) + c
  {
  }

  /** After the inner loop over the `i`-th user's tokens, the walk covers
      the first `i + 1` users. */
  lemma WalkNextUser(r: UserTargets, i: nat, u: UserId, t: Targets)
    requires WellFormed(r) && i < |r.keys| && u == r.keys[i]
    requires u in r.items && t == r.items[u]
    ensures UserPairs(r, r.keys[..i + 1]) == UserPairs(r, r.keys[..i]) + UserTargetPairs(r, u)
  {
    assert r.keys[..i + 1] == r.keys[..i] + [u];
    UserPairsAppend(r, r.keys[..i], [u]);
  }

  /** When the walk over the first `i + 1` users ends the pass, it is the
      whole pass. */
  lemma WalkEndsAfterUser(r: UserTargets, i: nat, respond: (UserId, Symbol) -> Response, deliver: (UserId, Symbol) -> bool)
    requires WellFormed(r) && i < |r.keys|
    requires Stopped(Trace(UserPairs(r, r.keys[..i]) + UserTargetPairs(r, r.keys[i]), respond, deliver))
    ensures Trace(Pairs(r), respond, deliver)
         == Trace(UserPairs(r, r.keys[..i]) + UserTargetPairs(r, r.keys[i]), respond, deliver)
  {
    UserPairsSplit(r, i);
    var a := UserPairs(r, r.keys[..i]);
    var b := UserTargetPairs(r, r.keys[i]);
    var c := UserPairs(r, r.keys[i + 1..]);
    Regroup(a, b, c);
    TraceAppendStopped(a + b, c, respond, deliver);
  }

  /** When the walk ends the pass at the `j`-th token of a user, walking
      the rest of that user's tokens changes nothing. */
  lemma WalkEndsInUser(walked: seq<Pair>, u: UserId, t: Targets, j: nat,
                       respond: (UserId, Symbol) -> Response, deliver: (UserId, Symbol) -> bool)
    requires t.Valid() && j < |t.keys|
    requires Stopped(Trace(walked + TokenPairs(u, t.keys[..j + 1], t.items), respond, deliver))
    ensures Trace(walked + TokenPairs(u, t.keys, t.items), respond, deliver)
         == Trace(walked + TokenPairs(u, t.keys[..j + 1], t.items), respond, deliver)
  {
    TokenPairsSplit(u, t, j + 1);
    var b := TokenPairs(u, t.keys[..j + 1], t.items);
    var c := TokenPairs(u, t.keys[j + 1..], t.items);
    Regroup(walked, b, c);
    TraceAppendStopped(walked + b, c, respond, deliver);
  }
}
