/**
 * The realtime-session table of the tutoring backend: the module-level
 * dict `active_sessions` that the `/realtime` routes fill, refresh,
 * empty and report. A request body and the provider's reply are JSON
 * values; the clock reading is a parameter.
 */
module Sessions {
  import opened Wrappers
  import opened Text
  import opened Json

  /**
   * What a route hands back: a JSON reply with its status (a plain dict
   * return is a 200 reply), or an exception the route does not catch, with
   * its message.
   */
  datatype Outcome = Reply(status: int, body: Json) | Raised(message: string)

  const SessionNotFound: string := "Session not found"
  const SessionIdRequired: string := "session_id is required"
  const KeptAliveStatus: string := "Session kept alive"
  const ClosedStatus: string := "Session closed"
  const CloseErrorPrefix: string := "Error closing session: "

  /** The body `{"error": msg}`. */
  function ErrorBody(msg: string): (r: Json)
    ensures r.Obj? && r.fields.Keys == {"error"} && r.fields["error"] == Str(msg)
  {
    Obj(map["error" := Str(msg)])
  }

  /** Python's name for the type a JSON value decodes to. */
  function TypeName(j: Json): string
  {
    match j
    case Null => "NoneType"
    case Bool(_) => "bool"
    case Int(_) => "int"
    case Float(_) => "float"
    case Str(_) => "str"
    case Arr(_) => "list"
    case Obj(_) => "dict"
  }

  /** The part of a number lexeme before its exponent. */
  function Mantissa(lexeme: string): (r: string)
    ensures |r| <= |lexeme| && r == lexeme[..|r|]
    ensures forall k :: 0 <= k < |r| ==> r[k] != 'e' && r[k] != 'E'
    ensures |r| < |lexeme| ==> lexeme[|r|] == 'e' || lexeme[|r|] == 'E'
  {
    if lexeme == [] || lexeme[0] == 'e' || lexeme[0] == 'E' then []
    else [lexeme[0]] + Mantissa(lexeme[1..])
  }

  /** The digits of `t`, in order, without its signs and its decimal point. */
  function DigitsOf(t: string): (r: string)
    ensures AllDigits(r) && |r| <= |t|
  {
    if t == [] then []
    else (if IsDigit(t[0]) then [t[0]] else []) + DigitsOf(t[1..])
  }

  /** The number of digits after the decimal point of a mantissa. */
  function FractionLength(mantissa: string): nat
  {
    match IndexOf(mantissa, '.', 0)
    case Some(p) => |mantissa| - p - 1
    case None => 0
  }

  /** The exponent written after `e` or `E`, with its sign; 0 when there is none. */
  function WrittenExponent(lexeme: string): int
  {
    var m := |Mantissa(lexeme)|;
    if m == |lexeme| then 0
    else
      var x := lexeme[m + 1..];
      var n: int := DigitsValue(DigitsOf(x));
      if x != [] && x[0] == '-' then -n else n
  }

  /**
   * A float lexeme `-?I(.F)?([eE][-+]?X)?` has the value `M * 10^E`, with
   * `M` the integer written by the digits of `I` and `F`, and `E` the
   * exponent `X` less the number of digits of `F`.
   */
  function Significand(lexeme: string): nat
  {
    DigitsValue(DigitsOf(Mantissa(lexeme)))
  }

  function Scale(lexeme: string): int
  {
    WrittenExponent(lexeme) - FractionLength(Mantissa(lexeme))
  }

  function Power(b: nat, n: nat): nat
  {
    if n == 0 then 1 else b * Power(b, n - 1)
  }

  lemma {:induction false} PowerAdd(b: nat, m: nat, n: nat)
    ensures Power(b, m + n) == Power(b, m) * Power(b, n)
    decreases m
  {
    if m > 0 {
      PowerAdd(b, m - 1, n);
      MulAssoc(b, Power(b, m - 1), Power(b, n));
    }
  }

  lemma MulAssoc(a: nat, b: nat, c: nat)
    ensures a * (b * c) == (a * b) * c
  {
  }

  lemma MulMono(a: nat, b: nat, c: nat, d: nat)
    requires a <= c && b <= d
    ensures a * b <= c * d
  {
    assert a * b <= c * b;
    assert c * b <= c * d;
  }

  lemma {:induction false} PowerMul(b: nat, m: nat, n: nat)
    ensures Power(b, m * n) == Power(Power(b, m), n)
    decreases n
  {
    if n > 0 {
      PowerMul(b, m, n - 1);
      PowerAdd(b, m, m * (n - 1));
      assert m * n == m + m * (n - 1);
    }
  }

  lemma {:induction false} PowerBaseMono(a: nat, c: nat, n: nat)
    requires a <= c
    ensures Power(a, n) <= Power(c, n)
    decreases n
  {
    if n > 0 {
      PowerBaseMono(a, c, n - 1);
      MulMono(a, Power(a, n - 1), c, Power(c, n - 1));
    }
  }

  lemma PowerExpMono(b: nat, m: nat, n: nat)
    requires 1 <= b && m <= n
    ensures Power(b, m) <= Power(b, n)
  {
    PowerAdd(b, m, n - m);
    PowerBaseMono(1, b, n - m);
    OnePower(n - m);
    AtLeastOnce(Power(b, m), Power(b, n - m));
  }

  lemma AtLeastOnce(a: nat, b: nat)
    requires b >= 1
    ensures a <= a * b
  {
  }

  lemma {:induction false} OnePower(n: nat)
    ensures Power(1, n) == 1
    decreases n
  {
    if n > 0 {
      OnePower(n - 1);
    }
  }

  /**
   * `float(lexeme) == 0.0`: the value is zero, or so small that rounding
   * to the nearest double gives zero. The smallest positive double is
   * `2^-1074`, so every value up to half of it, `2^-1075`, rounds to zero
   * (the tie to the even neighbour, zero, included).
   */
  predicate IsZeroFloat(lexeme: string)
  {
    && lexeme != "NaN" && lexeme != "Infinity" && lexeme != "-Infinity"
    && (|| Significand(lexeme) == 0
        || (Scale(lexeme) < 0 && Significand(lexeme) * Power(2, 1075) <= Power(10, -Scale(lexeme))))
  }

  /** Python truthiness of a decoded JSON value. */
  predicate Truthy(j: Json)
  {
    match j
    case Null => false
    case Bool(b) => b
    case Int(i) => i != 0
    case Float(lexeme) => !IsZeroFloat(lexeme)
    case Str(s) => s != []
    case Arr(items) => items != []
    case Obj(fields) => fields != map[]
  }

  /** `2^1075 <= 10^359`. */
  lemma HalfSubnormalAbove()
    ensures Power(2, 1075) <= Power(10, 359)
  {
    PowerExpMono(2, 1075, 3 * 359);
    PowerMul(2, 3, 359);
    PowerBaseMono(8, 10, 359);
  }

  /** `2^1075 > 10^300`. */
  lemma HalfSubnormalBelow()
    ensures Power(2, 1075) > Power(10, 300)
  {
    PowerAdd(2, 75, 1000);
    PowerMul(2, 10, 100);
    PowerBaseMono(1000, 1024, 100);
    PowerMul(10, 3, 100);
    PowerExpMono(2, 1, 75);
    PowerBaseMono(1, 2, 1000);
    OnePower(1000);
    MoreThanOnce(Power(2, 75), Power(2, 1000));
  }

  lemma MoreThanOnce(a: nat, b: nat)
    requires a >= 2 && b >= 1
    ensures a * b > b
  {
  }

  /**
   * A float of at most `n` significant digits whose scale is `-(n + 359)`
   * or lower is below `2^-1075`, so it is `0.0` and falsy: `1e-400` is one.
   */
  lemma UnderflowIsFalsy(x: string, n: nat)
    requires x != "NaN" && x != "Infinity" && x != "-Infinity"
    requires Significand(x) < Power(10, n) && Scale(x) <= -(n + 359)
    ensures !Truthy(Float(x))
  {
    UnderflowBound(Significand(x), n, -Scale(x));
  }

  /** `m < 10^n` and `n + 359 <= k` give `m * 2^1075 <= 10^k`. */
  lemma UnderflowBound(m: nat, n: nat, k: nat)
    requires m < Power(10, n) && n + 359 <= k
    ensures m * Power(2, 1075) <= Power(10, k)
  {
    HalfSubnormalAbove();
    PowerAdd(10, n, 359);
    PowerExpMono(10, n + 359, k);
    ScaledBelow(m, Power(2, 1075), Power(10, 359), Power(10, n), Power(10, k));
  }

  lemma ScaledBelow(m: nat, h: nat, a: nat, c: nat, p: nat)
    requires h <= a && m < c && c * a <= p
    ensures m * h <= p
  {
    MulMono(m, h, c, a);
  }

  lemma ScaledAbove(m: nat, h: nat, q: nat, p: nat)
    requires m >= 1 && h > q && q >= p
    ensures m * h > p
  {
    AtLeastOnce(h, m);
  }

  /**
   * A float with a non-zero digit and a scale of `-300` or higher is at
   * least `1e-300`, far above `2^-1075`, so it is truthy: the whole
   * normal range of doubles is.
   */
  lemma NoUnderflowIsTruthy(x: string)
    requires Significand(x) > 0 && Scale(x) >= -300
    ensures Truthy(Float(x))
  {
    if Scale(x) < 0 {
      var m := Significand(x);
      var k: nat := -Scale(x);
      HalfSubnormalBelow();
      PowerExpMono(10, k, 300);
      ScaledAbove(m, Power(2, 1075), Power(10, 300), Power(10, k));
    }
  }

  /** `1e-400` is read as `1 * 10^-400`. */
  lemma TinyLexeme()
    ensures Significand("1e-400") == 1 && Scale("1e-400") == -400
  {
    var x := "1e-400";
    assert x[1..] == "e-400";
    assert Mantissa(x[1..]) == [];
    assert Mantissa(x) == "1";
    assert DigitsOf("1") == "1";
    assert IndexOf("1", '.', 0) == None;
    assert x[2..] == "-400";
    assert DigitsOf("-400") == "400";
    assert "400"[..2] == "40" && "40"[..1] == "4" && "4"[..0] == "";
  }

  /** `1e-400` decodes to `0.0`, so it is falsy. */
  lemma TinyFloatFalsy()
    ensures !Truthy(Float("1e-400"))
  {
    TinyLexeme();
    assert Power(10, 1) == 10;
    UnderflowIsFalsy("1e-400", 1);
  }

  /** Lists and dicts cannot be dict keys. */
  predicate Hashable(j: Json)
  {
    !j.Arr? && !j.Obj?
  }

  /** `data.get(key)`: the value under `key`, or None. */
  function Get(fields: map<string, Json>, key: string): (r: Json)
    ensures key in fields ==> r == fields[key]
    ensures key !in fields ==> r == Null
  {
    if key in fields then fields[key] else Null
  }

  /** The message of calling `.get` on a value that is not a dict. */
  function NoGetMessage(j: Json): string
  {
    "'" + TypeName(j) + "' object has no attribute 'get'"
  }

  /** The message of using a list or dict as a dict key. */
  function UnhashableMessage(j: Json): string
  {
    "unhashable type: '" + TypeName(j) + "'"
  }

  predicate Distinct(s: seq<Json>)
  {
    forall i, j :: 0 <= i < j < |s| ==> s[i] != s[j]
  }

  /**
   * The session table: each session's data by its id, and the ids in the
   * order the dict keeps them (the order in which they were first stored).
   */
  datatype Table = Table(sessions: map<Json, map<string, Json>>, order: seq<Json>)

  /** The order lists each stored id once, and every stored id is a truthy, hashable value. */
  predicate WellFormed(t: Table)
  {
    && Distinct(t.order)
    && (forall k :: k in t.order ==> k in t.sessions)
    && (forall k :: k in t.sessions ==> k in t.order)
    && (forall k :: k in t.sessions ==> Truthy(k) && Hashable(k))
  }

  /** `s` without `x`, the others in their order. */
  function Without(s: seq<Json>, x: Json): (r: seq<Json>)
    ensures forall y :: y in r <==> y in s && y != x
    ensures Distinct(s) ==> Distinct(r)
    ensures |r| <= |s|
    ensures x !in s ==> r == s
    ensures Distinct(s) && x in s ==> exists k :: 0 <= k < |s| && s[k] == x && r == s[..k] + s[k + 1..]
  {
    if s == [] then []
    else if s[0] == x then
      var rest := Without(s[1..], x);
      assert Distinct(s) ==> x !in s[1..] && rest == s[1..] && s[0] == x && rest == s[..0] + s[0 + 1..];
      rest
    else
      var rest := Without(s[1..], x);
      assert Distinct(s) ==> s[0] !in s[1..];
      if Distinct(s) && x in s then
        RemovalAfterHead(s, x, rest);
        [s[0]] + rest
      else [s[0]] + rest
  }

  /** Removing `x` from the tail of `s` at some index removes it from `s` at the next one. */
  lemma RemovalAfterHead(s: seq<Json>, x: Json, rest: seq<Json>)
    requires s != [] && s[0] != x && x in s
    requires exists k :: 0 <= k < |s[1..]| && s[1..][k] == x && rest == s[1..][..k] + s[1..][k + 1..]
    ensures exists k :: 0 <= k < |s| && s[k] == x && [s[0]] + rest == s[..k] + s[k + 1..]
  {
    var k :| 0 <= k < |s[1..]| && s[1..][k] == x && rest == s[1..][..k] + s[1..][k + 1..];
    assert s[k + 1] == x && [s[0]] + rest == s[..k + 1] + s[k + 2..];
  }

  /** The session record as stored after a refresh at `now`. */
  function Touch(record: map<string, Json>, now: int): map<string, Json>
  {
    record["last_activity" := Int(now)]
  }

  /**
   * The storing step of `create_session` (lines 135-152): the provider's
   * status, its error text and its decoded reply in; the route's outcome
   * and the new table out.
   */
  function Created(t: Table, status: int, text: string, data: Json, now: int): (r: (Outcome, Table))
    ensures WellFormed(t) ==> WellFormed(r.1)
    ensures r.1.sessions.Keys >= t.sessions.Keys && |r.1.order| <= |t.order| + 1
  {
    if status != 200 then (Reply(status, ErrorBody(text)), t)
    else if !data.Obj? then (Raised(NoGetMessage(data)), t)
    else
      var id := Get(data.fields, "id");
      if !Truthy(id) then (Reply(200, data), t)
      else if !Hashable(id) then (Raised(UnhashableMessage(id)), t)
      else
        var record := Touch(data.fields, now);
        var order := if id in t.sessions then t.order else t.order + [id];
        (Reply(200, Obj(record)), Table(t.sessions[id := record], order))
  }

  /** `keep_alive` (lines 158-176). */
  function KeptAlive(t: Table, body: Json, now: int): (r: (Outcome, Table))
    ensures WellFormed(t) ==> WellFormed(r.1)
    ensures r.1.sessions.Keys == t.sessions.Keys && r.1.order == t.order
  {
    if !body.Obj? then (Raised(NoGetMessage(body)), t)
    else
      var id := Get(body.fields, "session_id");
      if !Truthy(id) then (Reply(404, ErrorBody(SessionNotFound)), t)
      else if !Hashable(id) then (Raised(UnhashableMessage(id)), t)
      else if id !in t.sessions then (Reply(404, ErrorBody(SessionNotFound)), t)
      else
        var record := Touch(t.sessions[id], now);
        var reply := Obj(map["status" := Str(KeptAliveStatus), "timestamp" := record["last_activity"]]);
        (Reply(200, reply), Table(t.sessions[id := record], t.order))
  }

  /** `close_session` (lines 181-209), its `except` included. */
  function Closed(t: Table, body: Json): (r: (Outcome, Table))
    ensures WellFormed(t) ==> WellFormed(r.1)
    ensures r.1.sessions.Keys <= t.sessions.Keys && |r.1.order| <= |t.order|
  {
    if !body.Obj? then (Reply(500, ErrorBody(CloseErrorPrefix + NoGetMessage(body))), t)
    else
      var id := Get(body.fields, "session_id");
      if !Truthy(id) then (Reply(400, ErrorBody(SessionIdRequired)), t)
      else if !Hashable(id) then (Reply(500, ErrorBody(CloseErrorPrefix + UnhashableMessage(id))), t)
      else if id in t.sessions then
        (Reply(200, Obj(map["status" := Str(ClosedStatus)])), Table(t.sessions - {id}, Without(t.order, id)))
      else (Reply(404, ErrorBody(SessionNotFound)), t)
  }

  /**
   * The module-level dict `active_sessions`, with the routes that change
   * it as methods. Each method is proved to do what the transition
   * function of the same route says, and to keep the table well formed.
   */
  class SessionStore {
    var sessions: map<Json, map<string, Json>>
    var order: seq<Json>

    function Contents(): Table
      reads this
    {
      Table(sessions, order)
    }

    predicate Valid()
      reads this
    {
      WellFormed(Contents())
    }

    /** The table is empty when the server starts. */
    constructor()
      ensures Valid() && sessions == map[] && order == []
    {
      sessions := map[];
      order := [];
    }

    method CreateSession(status: int, text: string, data: Json, now: int) returns (o: Outcome)
      requires Valid()
      modifies this
      ensures Valid()
      ensures (o, Contents()) == Created(old(Contents()), status, text, data, now)
    {
      if status != 200 {
        return Reply(status, ErrorBody(text));
      }
      if !data.Obj? {
        return Raised(NoGetMessage(data));
      }
      var id := Get(data.fields, "id");
      if Truthy(id) {
        if !Hashable(id) {
          return Raised(UnhashableMessage(id));
        }
        var record := data.fields["last_activity" := Int(now)];
        if id !in sessions {
          order := order + [id];
        }
        sessions := sessions[id := record];
        return Reply(200, Obj(record));
      }
      return Reply(200, data);
    }

    method KeepAlive(body: Json, now: int) returns (o: Outcome)
      requires Valid()
      modifies this
      ensures Valid()
      ensures (o, Contents()) == KeptAlive(old(Contents()), body, now)
    {
      if !body.Obj? {
        return Raised(NoGetMessage(body));
      }
      var id := Get(body.fields, "session_id");
      if !Truthy(id) {
        return Reply(404, ErrorBody(SessionNotFound));
      }
      if !Hashable(id) {
        return Raised(UnhashableMessage(id));
      }
      if id !in sessions {
        return Reply(404, ErrorBody(SessionNotFound));
      }
      sessions := sessions[id := sessions[id]["last_activity" := Int(now)]];
      o := Reply(200, Obj(map["status" := Str(KeptAliveStatus), "timestamp" := sessions[id]["last_activity"]]));
    }

    method CloseSession(body: Json) returns (o: Outcome)
      requires Valid()
      modifies this
      ensures Valid()
      ensures (o, Contents()) == Closed(old(Contents()), body)
    {
      if !body.Obj? {
        return Reply(500, ErrorBody(CloseErrorPrefix + NoGetMessage(body)));
      }
      var id := Get(body.fields, "session_id");
      if !Truthy(id) {
        return Reply(400, ErrorBody(SessionIdRequired));
      }
      if !Hashable(id) {
        return Reply(500, ErrorBody(CloseErrorPrefix + UnhashableMessage(id)));
      }
      if id in sessions {
        sessions := sessions - {id};
        order := Without(order, id);
        return Reply(200, Obj(map["status" := Str(ClosedStatus)]));
      }
      return Reply(404, ErrorBody(SessionNotFound));
    }

    /**
     * `debug_sessions` (lines 214-218): the number of sessions, their ids in
     * dict order, and the sessions themselves; the count and the id list agree.
     */
    method DebugSessions() returns (count: nat, ids: seq<Json>, all: map<Json, map<string, Json>>)
      requires Valid()
      ensures count == |sessions| == |ids|
      ensures ids == order && all == sessions
      ensures forall k :: k in ids <==> k in all
    {
      DistinctOrderCountsSessions(Contents());
      count := |sessions|;
      ids := order;
      all := sessions;
    }
  }

  /** The set of elements of a sequence without repeats is as large as the sequence. */
  lemma {:induction false} DistinctCard(s: seq<Json>)
    requires Distinct(s)
    ensures |set x | x in s| == |s|
  {
    if s != [] {
      var rest := s[1..];
      DistinctCard(rest);
      assert (set x | x in s) == (set x | x in rest) + {s[0]};
      assert s[0] !in rest;
    }
  }

  /** A well-formed table has exactly as many ids in its order as it has sessions. */
  lemma DistinctOrderCountsSessions(t: Table)
    requires WellFormed(t)
    ensures |t.order| == |t.sessions|
  {
    DistinctCard(t.order);
    assert (set x | x in t.order) == t.sessions.Keys;
  }
}

/** What the session routes promise, over the transition functions. */
module SessionProperties {
  import opened Json
  import opened Sessions

  /** A provider failure, a reply without a truthy id, or an unusable id leaves the table as it was. */
  lemma CreateWithoutIdKeepsTable(t: Table, status: int, text: string, data: Json, now: int)
    requires status != 200 || !data.Obj? || !Truthy(Get(data.fields, "id")) || !Hashable(Get(data.fields, "id"))
    ensures Created(t, status, text, data, now).1 == t
    ensures status != 200 ==> Created(t, status, text, data, now).0 == Reply(status, ErrorBody(text))
    ensures status == 200 && data.Obj? && !Truthy(Get(data.fields, "id")) ==>
              Created(t, status, text, data, now).0 == Reply(200, data)
  {
  }

  /**
   * A provider reply with a usable id is stored under that id, stamped with
   * `last_activity`, and returned; no other session changes, and a new id
   * goes to the end of the order.
   */
  lemma CreateStoresSession(t: Table, text: string, data: Json, now: int)
    requires data.Obj? && Truthy(Get(data.fields, "id")) && Hashable(Get(data.fields, "id"))
    ensures var id := Get(data.fields, "id");
            var (o, t') := Created(t, 200, text, data, now);
            && o.Reply? && o.status == 200 && o.body.Obj?
            && o.body.fields["last_activity"] == Int(now)
            && (forall k :: k in data.fields && k != "last_activity" ==> k in o.body.fields && o.body.fields[k] == data.fields[k])
            && o.body.fields.Keys == data.fields.Keys + {"last_activity"}
            && t'.sessions.Keys == t.sessions.Keys + {id}
            && t'.sessions[id] == o.body.fields
            && (forall k :: k in t.sessions && k != id ==> t'.sessions[k] == t.sessions[k])
            && t'.order == (if id in t.sessions then t.order else t.order + [id])
  {
  }

  /** Keep-alive answers 404 exactly when the id is missing, falsy or not stored, and then changes nothing. */
  lemma KeepAliveNotFound(t: Table, body: Json, now: int)
    ensures var (o, t') := KeptAlive(t, body, now);
            (o == Reply(404, ErrorBody(SessionNotFound))) <==>
              (body.Obj? && var id := Get(body.fields, "session_id");
                 !Truthy(id) || (Hashable(id) && id !in t.sessions))
    ensures var (o, t') := KeptAlive(t, body, now);
            !(o.Reply? && o.status == 200) ==> t' == t
  {
  }

  /**
   * A keep-alive for a stored id sets that session's `last_activity` to the
   * clock reading, reports it as the timestamp, and changes nothing else.
   */
  lemma KeepAliveRefreshesOnlyThatSession(t: Table, body: Json, now: int)
    requires WellFormed(t)
    requires body.Obj? && Get(body.fields, "session_id") in t.sessions
    ensures var id := Get(body.fields, "session_id");
            var (o, t') := KeptAlive(t, body, now);
            && o == Reply(200, Obj(map["status" := Str(KeptAliveStatus), "timestamp" := Int(now)]))
            && t'.sessions.Keys == t.sessions.Keys && t'.order == t.order
            && t'.sessions[id]["last_activity"] == Int(now)
            && t'.sessions[id].Keys == t.sessions[id].Keys + {"last_activity"}
            && (forall f :: f in t.sessions[id] && f != "last_activity" ==> t'.sessions[id][f] == t.sessions[id][f])
            && (forall k :: k in t.sessions && k != id ==> t'.sessions[k] == t.sessions[k])
  {
  }

  /** Close answers 400 exactly when the id is missing or falsy, 404 exactly when a usable id is not stored. */
  lemma CloseStatuses(t: Table, body: Json)
    ensures var (o, t') := Closed(t, body);
            (o == Reply(400, ErrorBody(SessionIdRequired))) <==>
              (body.Obj? && !Truthy(Get(body.fields, "session_id")))
    ensures var (o, t') := Closed(t, body);
            (o == Reply(404, ErrorBody(SessionNotFound))) <==>
              (body.Obj? && var id := Get(body.fields, "session_id");
                 Truthy(id) && Hashable(id) && id !in t.sessions)
    ensures var (o, t') := Closed(t, body);
            o.Reply? && (o.status == 200 || t' == t)
  {
  }

  /** `{"session_id": 1e-400}` names no session: the id decodes to `0.0`, so the answer is 400. */
  lemma CloseTinyFloatId(t: Table)
    ensures Closed(t, Obj(map["session_id" := Float("1e-400")])).0 == Reply(400, ErrorBody(SessionIdRequired))
  {
    var body := Obj(map["session_id" := Float("1e-400")]);
    assert Get(body.fields, "session_id") == Float("1e-400");
    TinyFloatFalsy();
  }

  /** Closing a stored id removes exactly that session, and its id from the order. */
  lemma CloseRemovesExactlyThatSession(t: Table, body: Json)
    requires WellFormed(t)
    requires body.Obj? && Get(body.fields, "session_id") in t.sessions
    ensures var id := Get(body.fields, "session_id");
            var (o, t') := Closed(t, body);
            && o == Reply(200, Obj(map["status" := Str(ClosedStatus)]))
            && id !in t'.sessions && t'.sessions.Keys == t.sessions.Keys - {id}
            && (forall k :: k in t'.sessions ==> t'.sessions[k] == t.sessions[k])
            && t'.order == Without(t.order, id) && |t'.order| == |t.order| - 1
  {
    var id := Get(body.fields, "session_id");
    DistinctOrderCountsSessions(t);
    DistinctOrderCountsSessions(Closed(t, body).1);
  }

  /** Once a session is closed, keeping it alive with the same request answers 404. */
  lemma CloseThenKeepAlive(t: Table, body: Json, now: int)
    requires WellFormed(t)
    requires Closed(t, body).0.status == 200
    ensures KeptAlive(Closed(t, body).1, body, now).0 == Reply(404, ErrorBody(SessionNotFound))
  {
  }

  /** A session just created can be kept alive by its id. */
  lemma CreateThenKeepAlive(t: Table, text: string, data: Json, now: int, later: int)
    requires data.Obj? && Truthy(Get(data.fields, "id")) && Hashable(Get(data.fields, "id"))
    ensures var body := Obj(map["session_id" := Get(data.fields, "id")]);
            var t' := Created(t, 200, text, data, now).1;
            KeptAlive(t', body, later).0 == Reply(200, Obj(map["status" := Str(KeptAliveStatus), "timestamp" := Int(later)]))
  {
  }
}
