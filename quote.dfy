/**
  The quote request of `get_token_price` (main.py:80-105): the HTTP response
  is a parameter, and what the function makes of it is modelled exactly,
  including what Python's `in` and `[...]` do when the payload is not
  shaped like an object at some level.
 */
module Quote {
  import opened Wrappers

  /** A decoded JSON document, as `response.json()` hands it to Python. */
  datatype Json =
    | JNull
    | JBool(b: bool)
    | JNumber(n: real)
    | JString(s: string)
    | JArray(elems: seq<Json>)
    | JObject(members: map<string, Json>)

  /** What `requests.get` produced: a request error (connection failure,
      a 4xx/5xx status from `raise_for_status`, an undecodable body), or a
      decoded body. */
  datatype Response = RequestFailed | Received(body: Json)

  /** What a call of `get_token_price` ends with: a returned value, a
      returned `None`, or an exception that is not a request error and so
      escapes the function (a KeyError or a TypeError). */
  datatype Fetched = Value(v: Json) | Missing | Raised

  /** The keys the shape check tests, outermost first. */
  function ShapePath(token: string): seq<string> {
    ["data", token, "quote", "USD"]
  }

  /** Python's `needle in s` on two strings. */
  function IsSubstring(needle: string, s: string): bool
    decreases |s|
  {
    needle <= s || (s != [] && IsSubstring(needle, s[1..]))
  }

  /** Python's `key in v` for a string `key`: key membership on a dict,
      element membership on a list, substring on a str; on a number, a
      bool or None it raises TypeError (`None` here). */
  function Contains(v: Json, key: string): Option<bool> {
    match v
    case JObject(m) => Some(key in m)
    case JArray(es) => Some(JString(key) in es)
    case JString(s) => Some(IsSubstring(key, s))
    case _ => None
  }

  /** Python's `v[key]` for a string `key`: only a dict holding `key` yields
      a value; anything else raises a KeyError or a TypeError (`None` here). */
  function Index(v: Json, key: string): Option<Json> {
    match v
    case JObject(m) => if key in m then Some(m[key]) else None
    case _ => None
  }

  /** The reference definition: the value reached by following `keys`
      through nested objects, if every step is an object holding the key. */
  function Path(v: Json, keys: seq<string>): Option<Json>
    decreases |keys|
  {
    if keys == [] then Some(v)
    else match v
      case JObject(m) => if keys[0] in m then Path(m[keys[0]], keys[1..]) else None
      case _ => None
  }

  /** Lines 97-102 from `v` down: the chained `key in ...` tests, evaluated
      left to right and stopping at the first false one, then the
      `[...]['price']` read of line 98. */
  function Probe(v: Json, keys: seq<string>): Fetched
    decreases |keys|
  {
    if keys == [] then
      match Index(v, "price")
      case Some(p) => Value(p)
      case None => Raised
    else
      match Contains(v, keys[0])
      case None => Raised
      case Some(false) => Missing
      case Some(true) =>
        match Index(v, keys[0])
        case None => Raised
        case Some(w) => Probe(w, keys[1..])
  }

  /** `get_token_price(token)` given the response of its request. */
  function FetchPrice(resp: Response, token: string): Fetched {
    match resp
    case RequestFailed => Missing
    case Received(body) => Probe(body, ShapePath(token))
  }

  /** The probe yields a value exactly when the object path, followed by
      `price`, exists, and that value is the one at its end. */
  lemma {:induction false} ProbeValueIff(v: Json, keys: seq<string>, p: Json)
    ensures Probe(v, keys) == Value(p) <==> Path(v, keys + ["price"]) == Some(p)
    decreases |keys|
  {
    if keys == [] {
      assert keys + ["price"] == ["price"];
    } else {
      assert (keys + ["price"])[1..] == keys[1..] + ["price"];
      match v
      case JObject(m) =>
        if keys[0] in m {
          ProbeValueIff(m[keys[0]], keys[1..], p);
        }
      case _ =>
    }
  }

  /** A key missing from an object met on the way makes the probe return `None`. */
  lemma {:induction false} ProbeAbsentKey(v: Json, keys: seq<string>, i: nat, m: map<string, Json>)
    requires i < |keys|
    requires Path(v, keys[..i]) == Some(JObject(m))
    requires keys[i] !in m
    ensures Probe(v, keys) == Missing
    decreases i
  {
    if i == 0 {
      assert keys[..0] == [];
    } else {
      assert keys[..i][0] == keys[0] && keys[..i][1..] == keys[1..][..i - 1];
      match v
      case JObject(n) =>
        ProbeAbsentKey(n[keys[0]], keys[1..], i - 1, m);
    }
  }

  /** When the whole checked path exists but its end is not an object
      holding `price`, line 98 raises. */
  lemma {:induction false} ProbeNoPrice(v: Json, keys: seq<string>, w: Json)
    requires Path(v, keys) == Some(w)
    requires !w.JObject? || "price" !in w.members
    ensures Probe(v, keys) == Raised
    decreases |keys|
  {
    if keys != [] {
      ProbeNoPrice(v.members[keys[0]], keys[1..], w);
    }
  }

  /** `get_token_price` returns a value exactly when the request succeeded
      and the payload holds `data[token].quote.USD.price`; that value. */
  lemma FetchValueIff(resp: Response, token: string, p: Json)
    ensures FetchPrice(resp, token) == Value(p)
        <==> resp.Received? && Path(resp.body, ShapePath(token) + ["price"]) == Some(p)
  {
    if resp.Received? {
      ProbeValueIff(resp.body, ShapePath(token), p);
    }
  }

  /** A request error, or an object payload missing one of `data`, the
      token, `quote` or `USD`, makes `get_token_price` return `None`. */
  lemma FetchMissing(resp: Response, token: string, i: nat, m: map<string, Json>)
    requires resp.Received? ==> i < 4 && Path(resp.body, ShapePath(token)[..i]) == Some(JObject(m))
                                && ShapePath(token)[i] !in m
    ensures FetchPrice(resp, token) == Missing
  {
    if resp.Received? {
      ProbeAbsentKey(resp.body, ShapePath(token), i, m);
    }
  }

  /** A payload whose `USD` entry exists but is not an object holding
      `price` makes `get_token_price` raise out of its `try`. */
  lemma FetchRaisesWithoutPrice(body: Json, token: string, w: Json)
    requires Path(body, ShapePath(token)) == Some(w)
    requires !w.JObject? || "price" !in w.members
    ensures FetchPrice(Received(body), token) == Raised
  {
    ProbeNoPrice(body, ShapePath(token), w);
  }
}
