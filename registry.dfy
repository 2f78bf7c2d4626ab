/**
  The price-target registry `user_targets` (main.py:23): a dict from chat
  id to a dict from token symbol to target price, both in insertion order,
  and the decision and update that `set_precio` (main.py:60-78) makes.
 */
module Registry {
  import opened Wrappers
  import opened PyDict

  type UserId = int
  type Symbol = string
  /** A target or quoted price in USD; Python floats are modelled as reals. */
  type Price = real

  type Targets = Dict<Symbol, Price>
  type UserTargets = Dict<UserId, Targets>

  /** Both levels are well-formed dicts. */
  ghost predicate WellFormed(r: UserTargets) {
    && r.Valid()
    && forall u :: u in r.items ==> r.items[u].Valid()
  }

  /** `user_targets.get(u, {}).get(t)`. */
  function Lookup(r: UserTargets, u: UserId, t: Symbol): Option<Price> {
    if u in r.items then r.items[u].Get(t) else None
  }

  /** Lines 71-74: give a user seen for the first time an empty inner dict,
      then store the price under the token. */
  function Upsert(r: UserTargets, u: UserId, t: Symbol, p: Price): (r': UserTargets)
    requires WellFormed(r)
    ensures WellFormed(r')
    ensures Lookup(r', u, t) == Some(p)
    ensures forall u', t' :: (u', t') != (u, t) ==> Lookup(r', u', t') == Lookup(r, u', t')
    ensures r'.items.Keys == r.items.Keys + {u}
    ensures u in r.items ==> r'.keys == r.keys
    ensures u !in r.items ==> r'.keys == r.keys + [u] && r'.items[u].keys == [t]
    ensures u in r.items && t in r.items[u].items ==> r'.items[u].keys == r.items[u].keys
    ensures u in r.items && t !in r.items[u].items ==> r'.items[u].keys == r.items[u].keys + [t]
  {
    var r1 := if u in r.items then r else r.Set(u, Empty());
    r1.Set(u, r1.items[u].Set(t, p))
  }

  /** `del user_targets[u][t]` for a stored target: the inner dict shrinks,
      the user keeps its (possibly now empty) entry and its position. */
  function Remove(r: UserTargets, u: UserId, t: Symbol): (r': UserTargets)
    requires WellFormed(r)
    requires Lookup(r, u, t).Some?
    ensures WellFormed(r')
    ensures Lookup(r', u, t) == None
    ensures forall u', t' :: (u', t') != (u, t) ==> Lookup(r', u', t') == Lookup(r, u', t')
    ensures r'.keys == r.keys && r'.items.Keys == r.items.Keys
    ensures r'.items[u].keys == Without(r.items[u].keys, t)
  {
    r.Set(u, r.items[u].Del(t))
  }

  /** Last write wins: a second `/setprecio` for the same user and token
      leaves the registry, order included, as if only it had run. */
  lemma UpsertTwice(r: UserTargets, u: UserId, t: Symbol, p1: Price, p2: Price)
    requires WellFormed(r)
    ensures Upsert(Upsert(r, u, t, p1), u, t, p2) == Upsert(r, u, t, p2)
  {
    var r1 := if u in r.items then r else r.Set(u, Empty());
    var once := Upsert(r, u, t, p1);
    SetTwice(r1.items[u], t, p1, p2);
    SetTwice(r1, u, r1.items[u].Set(t, p1), r1.items[u].Set(t, p1).Set(t, p2));
  }

  /** Removing a target that was just added for a new token of a known
      user restores the registry exactly. */
  lemma RemoveUndoesUpsert(r: UserTargets, u: UserId, t: Symbol, p: Price)
    requires WellFormed(r)
    requires u in r.items && t !in r.items[u].items
    ensures Remove(Upsert(r, u, t, p), u, t) == r
  {
    var inner := r.items[u];
    DelUndoesSet(inner, t, p);
    var up := Upsert(r, u, t, p);
    assert up == r.Set(u, inner.Set(t, p));
    assert Remove(up, u, t).items == r.items;
  }

  /** What `set_precio` replies, in the order it checks things. */
  datatype SetReply =
    | SelectFirst                         // no token selected yet (line 64)
    | Usage                               // missing or unparseable argument (line 78)
    | InvalidToken                        // token not among the listed ones (line 69)
    | Stored(token: Symbol, price: Price) // target stored (line 76)

  /** The decision of `set_precio`. `selected` is `context.user_data.get('selected_token')`,
      `arg` the result of `float(context.args[0])` (None when that raises
      IndexError or ValueError), `listed` the keys of `get_top_tokens()`
      (empty when its request fails). */
  function SetPriceReply(selected: Option<Symbol>, arg: Option<Price>, listed: set<Symbol>): (reply: SetReply)
    ensures reply == SelectFirst <==> selected.None? || selected.value == ""
    ensures reply == Usage <==> selected.Some? && selected.value != "" && arg.None?
    ensures reply == InvalidToken
        <==> selected.Some? && selected.value != "" && arg.Some? && selected.value !in listed
    ensures reply.Stored?
        <==> selected.Some? && selected.value != "" && arg.Some? && selected.value in listed
    ensures reply.Stored? ==> reply.token == selected.value && reply.price == arg.value
  {
    if selected.None? || selected.value == "" then SelectFirst
    else if arg.None? then Usage
    else if selected.value !in listed then InvalidToken
    else Stored(selected.value, arg.value)
  }
}
