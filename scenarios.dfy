/**
  Concrete runs of the model: a target set with `/setprecio` and then
  one or more scheduled passes of `monitor_prices` against fixed quotes.
 */
module Scenarios {
  import opened Wrappers
  import opened PyDict
  import opened Quote
  import opened Registry
  import opened Monitor

  /** A well-formed quote response pricing `token` at `price`. */
  function Quoted(token: Symbol, price: real): Response {
    Received(JObject(map["data" := JObject(map[token := JObject(map["quote" :=
      JObject(map["USD" := JObject(map["price" := JNumber(price)])])])])]))
  }

  /** Every token is quoted at `price`. */
  function QuotedAt(price: real): (UserId, Symbol) -> Response {
    (u: UserId, t: Symbol) => Quoted(t, price)
  }

  /** Every alert is delivered. */
  function Delivered(): (UserId, Symbol) -> bool {
    (u: UserId, t: Symbol) => true
  }

  /** `get_token_price` reads the price back out of `Quoted`. */
  lemma QuotedReads(token: Symbol, price: real)
    ensures FetchPrice(Quoted(token, price), token) == Value(JNumber(price))
  {
    var usd := JObject(map["price" := JNumber(price)]);
    var quote := JObject(map["USD" := usd]);
    var entry := JObject(map["quote" := quote]);
    var data := JObject(map[token := entry]);
    var body := JObject(map["data" := data]);
    assert Path(usd, ["price"]) == Some(JNumber(price));
    assert Path(quote, ["USD", "price"]) == Some(JNumber(price));
    assert Path(entry, ["quote", "USD", "price"]) == Some(JNumber(price));
    assert Path(data, [token, "quote", "USD", "price"]) == Some(JNumber(price));
    assert ShapePath(token) + ["price"] == ["data", token, "quote", "USD", "price"];
    assert Path(body, ["data", token, "quote", "USD", "price"]) == Some(JNumber(price));
    FetchValueIff(Quoted(token, price), token, JNumber(price));
  }

  /** `/setprecio` from a chat with no targets yet appends the chat with a
      one-entry dict. */
  lemma UpsertNewUser(r: UserTargets, u: UserId, t: Symbol, p: Price)
    requires WellFormed(r) && u !in r.items
    ensures Upsert(r, u, t, p) == Dict(r.keys + [u], r.items[u := Dict([t], map[t := p])])
  {
    var e: Targets := Empty();
    assert e.Set(t, p) == Dict([t], map[t := p]);
  }

  /** A first target from chat `u` is the registry's only triple. */
  lemma OneChat(u: UserId, t: Symbol, p: Price)
    ensures var r := Upsert(Empty(), u, t, p);
            && r == Dict([u], map[u := Dict([t], map[t := p])])
            && Pairs(r) == [Pair(u, t, p)]
  {
    var r := Upsert(Empty(), u, t, p);
    UpsertNewUser(Empty(), u, t, p);
    assert r.keys == [u] && [u][1..] == [];
    assert UserPairs(r, [u]) == UserTargetPairs(r, u) + UserPairs(r, []);
  }

  /** Chats `u1` and then `u2` each set a target for token `t`: chat `u1`'s
      triple comes first. */
  lemma TwoChats(u1: UserId, u2: UserId, t: Symbol, p1: Price, p2: Price)
    requires u1 != u2
    ensures var r := Upsert(Upsert(Empty(), u1, t, p1), u2, t, p2);
            && r == Dict([u1, u2], map[u1 := Dict([t], map[t := p1]), u2 := Dict([t], map[t := p2])])
            && Pairs(r) == [Pair(u1, t, p1), Pair(u2, t, p2)]
  {
    var r0 := Upsert(Empty(), u1, t, p1);
    UpsertNewUser(Empty(), u1, t, p1);
    UpsertNewUser(r0, u2, t, p2);
    var r := Upsert(r0, u2, t, p2);
    assert r.keys == [u1, u2];
    assert UserTargetPairs(r, u1) == [Pair(u1, t, p1)];
    assert UserTargetPairs(r, u2) == [Pair(u2, t, p2)];
    assert [u1, u2][1..] == [u2] && [u2][1..] == [];
    assert UserPairs(r, [u2]) == [Pair(u2, t, p2)];
  }

  /** Chat `u` sets a target for `t1` and then one for `t2`: they are
      checked in that order. */
  lemma TwoTokens(u: UserId, t1: Symbol, t2: Symbol, p1: Price, p2: Price)
    requires t1 != t2
    ensures var r := Upsert(Upsert(Empty(), u, t1, p1), u, t2, p2);
            && WellFormed(r)
            && Pairs(r) == [Pair(u, t1, p1), Pair(u, t2, p2)]
  {
    var r0 := Upsert(Empty(), u, t1, p1);
    UpsertNewUser(Empty(), u, t1, p1);
    var r := Upsert(r0, u, t2, p2);
    assert r.keys == [u] && [u][1..] == [];
    var ks, m := r.items[u].keys, r.items[u].items;
    assert ks == [t1, t2];
    TokenPairsAt(u, ks, m, 0);
    TokenPairsAt(u, ks, m, 1);
    assert UserPairs(r, [u]) == UserTargetPairs(r, u) + UserPairs(r, []);
  }

  /** BTC at 30000: a quote of 29500 changes nothing; a quote of 30500
      sends the alert and deletes the target; the next pass has nothing
      to check. */
  lemma BitcoinTarget()
    ensures var r0 := Upsert(Empty(), 7, "BTC", 30000.0);
            var step := Pair(7, "BTC", 30000.0);
            var r1 := AfterPass(r0, QuotedAt(29500.0), Delivered());
            var r2 := AfterPass(r1, QuotedAt(30500.0), Delivered());
            && Trace(Pairs(r0), QuotedAt(29500.0), Delivered()) == [Step(step, Below(29500.0))]
            && r1 == r0
            && Trace(Pairs(r1), QuotedAt(30500.0), Delivered()) == [Step(step, Alerted(30500.0))]
            && Lookup(r2, 7, "BTC") == None
            && Pairs(r2) == []
  {
    var r0 := Upsert(Empty(), 7, "BTC", 30000.0);
    OneChat(7, "BTC", 30000.0);
    QuotedReads("BTC", 29500.0);
    QuotedReads("BTC", 30500.0);
    PassKeepsOrder(r0, QuotedAt(30500.0), Delivered());
  }

  /** Two users target ETH at 2000 and 2500; ETH is quoted at 2200: only
      the first is alerted and loses the target. */
  lemma EtherTwoUsers()
    ensures var r := Upsert(Upsert(Empty(), 1, "ETH", 2000.0), 2, "ETH", 2500.0);
            var after := AfterPass(r, QuotedAt(2200.0), Delivered());
            && Lookup(after, 1, "ETH") == None
            && Lookup(after, 2, "ETH") == Some(2500.0)
  {
    var r := Upsert(Upsert(Empty(), 1, "ETH", 2000.0), 2, "ETH", 2500.0);
    var respond, deliver := QuotedAt(2200.0), Delivered();
    TwoChats(1, 2, "ETH", 2000.0, 2500.0);
    QuotedReads("ETH", 2200.0);
    var first := Pair(1, "ETH", 2000.0);
    assert StepOf(first, respond, deliver) == Step(first, Alerted(2200.0));
    assert Trace(Pairs(r), respond, deliver) == [Step(first, Alerted(2200.0))];
    PassEffect(r, respond, deliver);
  }

  /** When both ETH targets are met in the same pass, only the first one is
      alerted and deleted: the deletion ends the pass. The second is met in
      the pass after. */
  lemma EtherBothMet()
    ensures var r := Upsert(Upsert(Empty(), 1, "ETH", 2000.0), 2, "ETH", 2500.0);
            var once := AfterPass(r, QuotedAt(2600.0), Delivered());
            var twice := AfterPass(once, QuotedAt(2600.0), Delivered());
            && Lookup(once, 1, "ETH") == None
            && Lookup(once, 2, "ETH") == Some(2500.0)
            && Lookup(twice, 2, "ETH") == None
  {
    var r := Upsert(Upsert(Empty(), 1, "ETH", 2000.0), 2, "ETH", 2500.0);
    var respond, deliver := QuotedAt(2600.0), Delivered();
    TwoChats(1, 2, "ETH", 2000.0, 2500.0);
    QuotedReads("ETH", 2600.0);
    var ps := Pairs(r);
    assert FirstAlert(ps, respond, deliver, 0);
    assert !FirstAlert(ps, respond, deliver, 1);
    PassRemovesFirstMet(r, respond, deliver, 0);
    PassRemovesFirstMet(r, respond, deliver, 1);
    var once := AfterPass(r, respond, deliver);
    PassKeepsOrder(r, respond, deliver);
    assert |Trace(ps, respond, deliver)| == 1;
    assert Pairs(once) == [ps[1]];
    assert FirstAlert(Pairs(once), respond, deliver, 0);
    PassRemovesFirstMet(once, respond, deliver, 0);
  }

  /** Requests for `bad` get a `null` payload, so `get_token_price` raises
      (`'data' in None`); every other token is quoted at `price`. */
  function FailingFor(bad: Symbol, price: real): (UserId, Symbol) -> Response {
    (u: UserId, t: Symbol) => if t == bad then Received(JNull) else Quoted(t, price)
  }

  /** A chat whose first token fails and whose second is met: the failure is
      caught and the walk goes on to alert the second. */
  lemma FailingThenMet(u: UserId, bad: Symbol, good: Symbol, p1: Price, p2: Price, price: real)
    requires bad != good && p2 <= price
    ensures Trace([Pair(u, bad, p1), Pair(u, good, p2)], FailingFor(bad, price), Delivered())
         == [Step(Pair(u, bad, p1), QuoteError), Step(Pair(u, good, p2), Alerted(price))]
  {
    var respond, deliver := FailingFor(bad, price), Delivered();
    var first, second := Pair(u, bad, p1), Pair(u, good, p2);
    assert FetchPrice(respond(u, bad), bad) == Raised;
    var s1 := Step(first, QuoteError);
    assert StepOf(first, respond, deliver) == s1;
    assert respond(u, good) == Quoted(good, price);
    QuotedReads(good, price);
    var s2 := Step(second, Alerted(price));
    assert StepOf(second, respond, deliver) == s2;
    assert Trace([second], respond, deliver) == [s2];
    assert [first, second][1..] == [second];
  }

  /** One user targets XRP and then BTC. The XRP request makes
      `get_token_price` raise; that is caught and logged, and BTC, met, is
      still alerted and deleted, while XRP stays. */
  lemma FailingTokenDoesNotBlock()
    ensures var r := Upsert(Upsert(Empty(), 7, "XRP", 1.0), 7, "BTC", 30000.0);
            var respond := FailingFor("XRP", 30500.0);
            var after := AfterPass(r, respond, Delivered());
            && Trace(Pairs(r), respond, Delivered())
               == [Step(Pair(7, "XRP", 1.0), QuoteError), Step(Pair(7, "BTC", 30000.0), Alerted(30500.0))]
            && Lookup(after, 7, "BTC") == None
            && Lookup(after, 7, "XRP") == Some(1.0)
  {
    var r := Upsert(Upsert(Empty(), 7, "XRP", 1.0), 7, "BTC", 30000.0);
    TwoTokens(7, "XRP", "BTC", 1.0, 30000.0);
    FailingThenMet(7, "XRP", "BTC", 1.0, 30000.0, 30500.0);
    PassEffect(r, FailingFor("XRP", 30500.0), Delivered());
  }
}
