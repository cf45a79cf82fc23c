/** The log server's two routes: GET /api/logs builds a filtered SQL query
    with its parameters, POST /api/logs validates a log entry and inserts
    it. The database is a table of rows held by a class; SQL execution
    itself is reduced to running the insert. */
module LogServer {
  import opened Common

  const BASE_QUERY: string := "SELECT * FROM logs"
  const PLACEHOLDER: string := "?"
  const ORDER_TEXT: string := " ORDER BY timestamp DESC LIMIT "
  const ORDER_LIMIT: string := ORDER_TEXT + PLACEHOLDER
  const WHERE: string := " WHERE "
  const AND: string := " AND "
  const ACTION_COLUMN: string := "action_type = "
  const STATUS_COLUMN: string := "status = "
  const ACTION_CONDITION: string := ACTION_COLUMN + PLACEHOLDER
  const STATUS_CONDITION: string := STATUS_COLUMN + PLACEHOLDER
  const ALL: string := "all"
  const DEFAULT_LIMIT: int := 100

  /** A bound SQL parameter: query-string values are strings, the default
      limit is the number 100. */
  datatype Param = Text(s: string) | Number(n: int)

  // ---------------------------------------------------------------------------
  // GET /api/logs
  // ---------------------------------------------------------------------------

  /** A query filter is applied when it is given, non-empty and not 'all'. */
  predicate Applies(filter: Option<string>) {
    filter.Some? && filter.value != "" && filter.value != ALL
  }

  /** The limit parameter: the given value, else 100 (the destructuring
      default only replaces a missing value). */
  function LimitParam(limit: Option<string>): Param {
    if limit.Some? then Text(limit.value) else Number(DEFAULT_LIMIT)
  }

  /** The WHERE conditions, action type first, then status. */
  function Conditions(actionType: Option<string>, status: Option<string>): seq<string> {
    (if Applies(actionType) then [ACTION_CONDITION] else [])
    + (if Applies(status) then [STATUS_CONDITION] else [])
  }

  /** The values bound to the conditions, in the same order. */
  function FilterParams(actionType: Option<string>, status: Option<string>): seq<Param> {
    (if Applies(actionType) then [Text(actionType.value)] else [])
    + (if Applies(status) then [Text(status.value)] else [])
  }

  function WhereClause(conditions: seq<string>): string {
    if |conditions| > 0 then WHERE + Join(conditions, AND) else ""
  }

  /** The query text the route sends. */
  function ListQuery(actionType: Option<string>, status: Option<string>): string {
    BASE_QUERY + WhereClause(Conditions(actionType, status)) + ORDER_LIMIT
  }

  function ListParams(actionType: Option<string>, status: Option<string>, limit: Option<string>): seq<Param> {
    FilterParams(actionType, status) + [LimitParam(limit)]
  }

  /** The GET handler's query building: conditions and parameters pushed
      one filter at a time, the WHERE clause added only when there is a
      condition, then the ordering and the limit. */
  method BuildListQuery(actionType: Option<string>, status: Option<string>, limit: Option<string>)
    returns (query: string, params: seq<Param>)
    ensures query == ListQuery(actionType, status)
    ensures params == ListParams(actionType, status, limit)
  {
    query := BASE_QUERY;
    params := [];
    var conditions: seq<string> := [];
    if actionType.Some? && actionType.value != "" && actionType.value != ALL {
      conditions := conditions + [ACTION_CONDITION];
      params := params + [Text(actionType.value)];
    }
    if status.Some? && status.value != "" && status.value != ALL {
      conditions := conditions + [STATUS_CONDITION];
      params := params + [Text(status.value)];
    }
    assert conditions == Conditions(actionType, status);
    assert params == FilterParams(actionType, status);
    if |conditions| > 0 {
      query := query + (WHERE + Join(conditions, AND));
    }
    assert query == BASE_QUERY + WhereClause(conditions);
    query := query + ORDER_LIMIT;
    params := params + [LimitParam(limit)];
  }

  /** Each condition is bound to its own filter's value: the i-th
      condition names the column whose value is the i-th parameter, and
      a filter is there iff it applies. */
  lemma ConditionsAligned(actionType: Option<string>, status: Option<string>)
    ensures |Conditions(actionType, status)| == |FilterParams(actionType, status)|
    ensures ACTION_CONDITION in Conditions(actionType, status) <==> Applies(actionType)
    ensures STATUS_CONDITION in Conditions(actionType, status) <==> Applies(status)
    ensures forall i | 0 <= i < |Conditions(actionType, status)| ::
      (Conditions(actionType, status)[i] == ACTION_CONDITION ==> FilterParams(actionType, status)[i] == Text(actionType.value))
      && (Conditions(actionType, status)[i] == STATUS_CONDITION ==> FilterParams(actionType, status)[i] == Text(status.value))
    ensures Applies(actionType) && Applies(status) ==> Conditions(actionType, status) == [ACTION_CONDITION, STATUS_CONDITION]
  {
  }

  /** Without filters the query has no WHERE clause; with filters it has
      one, listing the conditions joined by AND. */
  lemma WhereIffConditions(actionType: Option<string>, status: Option<string>)
    ensures !Applies(actionType) && !Applies(status) ==>
      ListQuery(actionType, status) == BASE_QUERY + ORDER_LIMIT
    ensures Applies(actionType) && !Applies(status) ==>
      ListQuery(actionType, status) == BASE_QUERY + WHERE + ACTION_CONDITION + ORDER_LIMIT
    ensures !Applies(actionType) && Applies(status) ==>
      ListQuery(actionType, status) == BASE_QUERY + WHERE + STATUS_CONDITION + ORDER_LIMIT
    ensures Applies(actionType) && Applies(status) ==>
      ListQuery(actionType, status)
      == BASE_QUERY + WHERE + ACTION_CONDITION + AND + STATUS_CONDITION + ORDER_LIMIT
  {
    var c := Conditions(actionType, status);
    if |c| == 2 {
      assert c == [ACTION_CONDITION, STATUS_CONDITION];
      assert Join(c, AND) == ACTION_CONDITION + AND + STATUS_CONDITION by {
        assert c[1..] == [STATUS_CONDITION];
      }
    } else if |c| == 1 {
      assert Join(c, AND) == c[0];
    } else {
      assert WhereClause(c) == "";
    }
  }

  /** The number of `?` placeholders in a text. */
  function Placeholders(s: string): nat {
    multiset(s)['?']
  }

  /** Texts joined by `?` hold one placeholder fewer than there are texts,
      when none of them holds one itself. */
  lemma {:induction false} JoinedPlaceholders(segments: seq<string>)
    requires |segments| >= 1
    requires forall k | 0 <= k < |segments| :: '?' !in segments[k]
    ensures Placeholders(Join(segments, PLACEHOLDER)) == |segments| - 1
    decreases |segments|
  {
    if |segments| > 1 {
      JoinedPlaceholders(segments[1..]);
      assert multiset(segments[0] + PLACEHOLDER + Join(segments[1..], PLACEHOLDER))
        == multiset(segments[0]) + multiset(PLACEHOLDER) + multiset(Join(segments[1..], PLACEHOLDER));
    }
  }

  /** The texts between the placeholders of the query. */
  function QuerySegments(actionType: Option<string>, status: Option<string>): seq<string> {
    if Applies(actionType) && Applies(status) then
      [BASE_QUERY + WHERE + ACTION_COLUMN, AND + STATUS_COLUMN, ORDER_TEXT, ""]
    else if Applies(actionType) then [BASE_QUERY + WHERE + ACTION_COLUMN, ORDER_TEXT, ""]
    else if Applies(status) then [BASE_QUERY + WHERE + STATUS_COLUMN, ORDER_TEXT, ""]
    else [BASE_QUERY + ORDER_TEXT, ""]
  }

  lemma NoPlaceholderInText()
    ensures '?' !in BASE_QUERY && '?' !in WHERE && '?' !in AND
    ensures '?' !in ACTION_COLUMN && '?' !in STATUS_COLUMN && '?' !in ORDER_TEXT
  {
  }

  lemma JoinOfTwo(a: string, b: string, p: string)
    ensures Join([a, b], p) == a + p + b
  {
    assert [a, b][1..] == [b];
  }

  lemma JoinOfThree(a: string, b: string, c: string, p: string)
    ensures Join([a, b, c], p) == a + p + (b + p + c)
  {
    assert [a, b, c][1..] == [b, c];
    JoinOfTwo(b, c, p);
  }

  lemma JoinOfFour(a: string, b: string, c: string, d: string, p: string)
    ensures Join([a, b, c, d], p) == a + p + (b + p + (c + p + d))
  {
    assert [a, b, c, d][1..] == [b, c, d];
    JoinOfThree(b, c, d, p);
  }

  lemma Regroup(x: string, y: string, z: string, p: string)
    ensures x + (y + p) + (z + p) == x + y + p + (z + p + "")
  {
    assert z + p + "" == z + p;
  }

  lemma Regroup2(x: string, y: string, a: string, z: string, t: string, p: string)
    ensures x + (y + p) + a + (z + p) + (t + p) == x + y + p + (a + z + p + (t + p + ""))
  {
    assert t + p + "" == t + p;
  }

  lemma {:induction false} QuerySegmentsJoin(actionType: Option<string>, status: Option<string>)
    ensures Join(QuerySegments(actionType, status), PLACEHOLDER) == ListQuery(actionType, status)
  {
    WhereIffConditions(actionType, status);
    var p := PLACEHOLDER;
    if Applies(actionType) && Applies(status) {
      JoinOfFour(BASE_QUERY + WHERE + ACTION_COLUMN, AND + STATUS_COLUMN, ORDER_TEXT, "", p);
      Regroup2(BASE_QUERY + WHERE, ACTION_COLUMN, AND, STATUS_COLUMN, ORDER_TEXT, p);
    } else if Applies(actionType) {
      JoinOfThree(BASE_QUERY + WHERE + ACTION_COLUMN, ORDER_TEXT, "", p);
      Regroup(BASE_QUERY + WHERE, ACTION_COLUMN, ORDER_TEXT, p);
    } else if Applies(status) {
      JoinOfThree(BASE_QUERY + WHERE + STATUS_COLUMN, ORDER_TEXT, "", p);
      Regroup(BASE_QUERY + WHERE, STATUS_COLUMN, ORDER_TEXT, p);
    } else {
      JoinOfTwo(BASE_QUERY + ORDER_TEXT, "", p);
      assert BASE_QUERY + ORDER_TEXT + p + "" == BASE_QUERY + (ORDER_TEXT + p);
    }
  }

  /** The query holds one placeholder fewer than it has texts between them. */
  lemma QueryPlaceholders(actionType: Option<string>, status: Option<string>)
    ensures Placeholders(ListQuery(actionType, status)) == |QuerySegments(actionType, status)| - 1
  {
    QuerySegmentsJoin(actionType, status);
    NoPlaceholderInText();
    var segs := QuerySegments(actionType, status);
    assert forall k | 0 <= k < |segs| :: '?' !in segs[k];
    JoinedPlaceholders(segs);
  }

  /** The query is its placeholder-free texts joined by `?`, one placeholder
      per parameter; so it holds exactly as many placeholders as there are
      parameters, and the last parameter is the limit (100 unless given). */
  lemma {:induction false} PlaceholdersMatchParams(actionType: Option<string>, status: Option<string>, limit: Option<string>)
    ensures var segs := QuerySegments(actionType, status);
      Join(segs, PLACEHOLDER) == ListQuery(actionType, status)
      && (forall k | 0 <= k < |segs| :: '?' !in segs[k])
      && |segs| == |ListParams(actionType, status, limit)| + 1
    ensures ListParams(actionType, status, limit)[|ListParams(actionType, status, limit)| - 1]
      == (if limit.Some? then Text(limit.value) else Number(100))
  {
    QuerySegmentsJoin(actionType, status);
    NoPlaceholderInText();
    ConditionsAligned(actionType, status);
  }

  /** The list query holds exactly as many `?` as there are parameters
      bound to it. */
  lemma PlaceholderCount(actionType: Option<string>, status: Option<string>, limit: Option<string>)
    ensures Placeholders(ListQuery(actionType, status)) == |ListParams(actionType, status, limit)|
  {
    PlaceholdersMatchParams(actionType, status, limit);
    QueryPlaceholders(actionType, status);
  }

  // ---------------------------------------------------------------------------
  // POST /api/logs
  // ---------------------------------------------------------------------------

  /** A value of the JSON request body. */
  datatype Json =
    | JNull | JBool(b: bool) | JNum(n: int) | JStr(s: string)
    | JArray(items: seq<Json>) | JObject(fields: seq<(string, Json)>)

  predicate Truthy(v: Json) {
    match v
    case JNull => false
    case JBool(b) => b
    case JNum(n) => n != 0
    case JStr(s) => s != ""
    case JArray(_) => true
    case JObject(_) => true
  }

  /** typeof v === 'object': objects, arrays and null. */
  predicate IsObject(v: Json) {
    v.JNull? || v.JArray? || v.JObject?
  }

  /** A value bound to an insert parameter; undefined binds as NULL. */
  datatype Bound = Undefined | Value(v: Json) | Stringified(text: string)

  /** The request body; a field missing from it is None. */
  datatype LogRequest = LogRequest(
    actionType: Option<Json>, details: Option<Json>, username: Option<Json>,
    status: Option<Json>, userAgent: Option<Json>)

  /** A row of the logs table (id and timestamp aside). */
  datatype LogRow = LogRow(actionType: Bound, details: Bound, username: Bound, status: Bound, userAgent: Bound)

  datatype PostReply = BadRequest(error: string) | Created(id: nat)

  const ACTION_REQUIRED: string := "action_type is required"

  predicate Given(field: Option<Json>) {
    field.Some? && Truthy(field.value)
  }

  /** `field || fallback`. */
  function OrDefault(field: Option<Json>, fallback: string): (b: Bound)
    ensures Given(field) ==> b == Value(field.value)
    ensures !Given(field) ==> b == Value(JStr(fallback))
  {
    if Given(field) then Value(field.value) else Value(JStr(fallback))
  }

  /** The details parameter: objects, arrays and null are stringified,
      anything else is bound as it is, a missing field as NULL. */
  function DetailsParam(details: Option<Json>, stringify: Json -> string): (b: Bound)
    ensures details.Some? && IsObject(details.value) ==> b == Stringified(stringify(details.value))
    ensures details.Some? && !IsObject(details.value) ==> b == Value(details.value)
    ensures details.None? ==> b == Undefined
  {
    match details
    case None => Undefined
    case Some(v) => if IsObject(v) then Stringified(stringify(v)) else Value(v)
  }

  /** The row the insert writes for a valid request. */
  function RowOf(req: LogRequest, stringify: Json -> string): LogRow
    requires Given(req.actionType)
  {
    LogRow(Value(req.actionType.value), DetailsParam(req.details, stringify),
      OrDefault(req.username, "Anonymous"), OrDefault(req.status, "info"), OrDefault(req.userAgent, ""))
  }

  /** The logs table: rows in insertion order; row k has id k + 1. */
  class LogTable {
    var rows: seq<LogRow>

    constructor ()
      ensures rows == []
    {
      rows := [];
    }

    /** The POST handler: a request without a truthy action_type is
        refused with 400 and nothing is inserted; otherwise one row is
        appended and its id returned. */
    method HandlePost(req: LogRequest, stringify: Json -> string) returns (reply: PostReply)
      modifies this
      ensures !Given(req.actionType) ==> reply == BadRequest(ACTION_REQUIRED) && rows == old(rows)
      ensures Given(req.actionType) ==>
        rows == old(rows) + [RowOf(req, stringify)] && reply == Created(|rows|)
    {
      if !(req.actionType.Some? && Truthy(req.actionType.value)) {
        return BadRequest(ACTION_REQUIRED);
      }
      var row := RowOf(req, stringify);
      rows := rows + [row];
      reply := Created(|rows|);
    }
  }

  /** The defaults of an inserted row: the username is Anonymous, the
      status info and the user agent empty unless the request gives a
      truthy value; an object's details are stored as their JSON text. */
  lemma InsertDefaults(req: LogRequest, stringify: Json -> string)
    requires Given(req.actionType)
    ensures var row := RowOf(req, stringify);
      row.actionType == Value(req.actionType.value)
      && (req.username.None? ==> row.username == Value(JStr("Anonymous")))
      && (req.status.None? ==> row.status == Value(JStr("info")))
      && (req.userAgent.None? ==> row.userAgent == Value(JStr("")))
      && (req.username == Some(JStr("")) ==> row.username == Value(JStr("Anonymous")))
      && (forall o :: req.details == Some(JObject(o)) ==> row.details == Stringified(stringify(JObject(o))))
  {
  }
}
