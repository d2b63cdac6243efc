/**
 * The database access layer: the module-level connection pool that connectDB
 * sets and getPool guards, plain queries, and callProcedure, which builds the
 * `SELECT name($1, ..., $n)` text, writes a readable log line of the call and
 * returns the procedure's column of the first result row.
 *
 * The pool itself is a flag, and what the database answers is an input of each
 * call: a list of rows (column name to value) or the message of an error.
 */
module Connection {
  import opened Common
  import Text

  const MsgNotInitialized := "Base de datos no inicializada. Llama a connectDB() primero."

  /** The TypeError of reading a column of the missing first row. */
  function NoRowMessage(name: string): string {
    "Cannot read properties of undefined (reading '" + name + "')"
  }

  // --------------------------------------------------------------- query text

  /** `$i`, the i-th positional parameter. */
  function Placeholder(i: nat): string {
    "$" + Text.NatToString(i)
  }

  /** `params.map((_, index) => `$${index + 1}`)` */
  function PlaceholderList(n: nat): (r: seq<string>)
    ensures |r| == n
    ensures forall i :: 0 <= i < n ==> r[i] == Placeholder(i + 1)
  {
    seq(n, i requires 0 <= i => Placeholder(i + 1))
  }

  /** No two parameters share a placeholder. */
  lemma PlaceholdersDistinct(n: nat, i: int, j: int)
    requires 0 <= i < j < n
    ensures PlaceholderList(n)[i] != PlaceholderList(n)[j]
  {
    if PlaceholderList(n)[i] == PlaceholderList(n)[j] {
      assert Placeholder(i + 1)[1..] == Text.NatToString(i + 1);
      assert Placeholder(j + 1)[1..] == Text.NatToString(j + 1);
      Text.NatToStringInjective(i + 1, j + 1);
    }
  }

  /** The statement callProcedure sends: `SELECT name($1, ..., $n)`, and `SELECT name()` without parameters. */
  function QueryText(name: string, params: seq<JsValue>): (r: string)
    ensures params == [] ==> r == "SELECT " + name + "()"
    ensures Text.StartsWith(r, "SELECT " + name + "(") && r[|r| - 1] == ')'
  {
    "SELECT " + name + "(" + Text.Join(PlaceholderList(|params|), ", ") + ")"
  }

  function CountChar(s: string, c: char): nat {
    if s == [] then 0 else CountChar(s[..|s| - 1], c) + (if s[|s| - 1] == c then 1 else 0)
  }

  lemma {:induction false} CountCharAppend(s: string, t: string, c: char)
    ensures CountChar(s + t, c) == CountChar(s, c) + CountChar(t, c)
    decreases |t|
  {
    if t != [] {
      assert (s + t)[..|s + t| - 1] == s + t[..|t| - 1];
      assert (s + t)[|s + t| - 1] == t[|t| - 1];
      CountCharAppend(s, t[..|t| - 1], c);
    } else {
      assert s + t == s;
    }
  }

  lemma {:induction false} AbsentNotCounted(s: string, c: char)
    requires forall k :: 0 <= k < |s| ==> s[k] != c
    ensures CountChar(s, c) == 0
    decreases |s|
  {
    if s != [] {
      AbsentNotCounted(s[..|s| - 1], c);
    }
  }

  /** The placeholder list holds exactly n parameter markers. */
  lemma {:induction false} PlaceholderCount(n: nat)
    ensures CountChar(Text.Join(PlaceholderList(n), ", "), '$') == n
  {
    AbsentNotCounted(Text.NatToString(n), '$');
    CountCharAppend("$", Text.NatToString(n), '$');
    assert CountChar("$", '$') == 1 by {
      assert "$"[..0] == [];
    }
    if n > 1 {
      assert PlaceholderList(n)[..n - 1] == PlaceholderList(n - 1);
      PlaceholderCount(n - 1);
      CountCharAppend(Text.Join(PlaceholderList(n - 1), ", "), ", ", '$');
      CountCharAppend(Text.Join(PlaceholderList(n - 1), ", ") + ", ", Placeholder(n), '$');
      AbsentNotCounted(", ", '$');
    } else if n == 0 {
    }
  }

  /** A procedure name without `$` gives a statement with one marker per parameter. */
  lemma QueryTextMarkers(name: string, params: seq<JsValue>)
    requires CountChar(name, '$') == 0
    ensures CountChar(QueryText(name, params), '$') == |params|
  {
    var ps := Text.Join(PlaceholderList(|params|), ", ");
    PlaceholderCount(|params|);
    CountCharAppend("SELECT ", name, '$');
    CountCharAppend("SELECT " + name, "(", '$');
    CountCharAppend("SELECT " + name + "(", ps, '$');
    CountCharAppend("SELECT " + name + "(" + ps, ")", '$');
    AbsentNotCounted("SELECT ", '$');
    AbsentNotCounted("(", '$');
    AbsentNotCounted(")", '$');
  }

  // ----------------------------------------------------------------- log text

  /** One parameter in the log line: strings in single quotes (unescaped), null as nothing. */
  function FormatParam(p: JsValue): string {
    match p
    case JsString(s) => "'" + s + "'"
    case JsInt(n) => Text.IntToString(n)
    case JsBool(b) => if b then "true" else "false"
    case JsNull => ""
  }

  function FormattedParams(params: seq<JsValue>): (r: seq<string>)
    ensures |r| == |params|
    ensures forall i :: 0 <= i < |params| ==> r[i] == FormatParam(params[i])
  {
    seq(|params|, i requires 0 <= i < |params| => FormatParam(params[i]))
  }

  /** `select name(param1, 'param2', ...)`, the line logged for each call. */
  function LogLine(name: string, params: seq<JsValue>): (r: string)
    ensures Text.StartsWith(r, "select " + name + "(") && r[|r| - 1] == ')'
    ensures params == [] ==> r == "select " + name + "()"
    ensures |params| == 1 ==> r == "select " + name + "(" + FormatParam(params[0]) + ")"
  {
    "select " + name + "(" + Text.Join(FormattedParams(params), ", ") + ")"
  }

  /**
   * The quotes are not escaped, so the log line does not determine the call:
   * one string parameter `a', 'b` is logged like the two parameters `a` and `b`.
   */
  lemma LogLineAmbiguous(name: string)
    ensures LogLine(name, [JsString("a', 'b")]) == LogLine(name, [JsString("a"), JsString("b")])
    ensures [JsString("a', 'b")] != [JsString("a"), JsString("b")]
  {
    var one := FormattedParams([JsString("a', 'b")]);
    var two := FormattedParams([JsString("a"), JsString("b")]);
    assert FormatParam(JsString("a")) == "'a'" && FormatParam(JsString("b")) == "'b'";
    assert two[0] == "'a'" && two[1] == "'b'";
    assert two == ["'a'", "'b'"];
    assert two[..1] == ["'a'"];
    assert Text.Join(two, ", ") == "'a'" + ", " + "'b'";
    assert Text.Join(one, ", ") == "'a', 'b'";
  }

  // -------------------------------------------------------------------- pool

  /** The module's connection state and the traces of what it sent and logged. */
  class Pg {
    /** Whether `pool` has been assigned. */
    var pool: bool
    /** The statements handed to the pool, with their parameters, oldest first. */
    var sent: seq<(string, seq<JsValue>)>
    /** The info-level log lines, oldest first. */
    var infoLog: seq<string>

    constructor()
      ensures !pool && sent == [] && infoLog == []
    {
      pool := false;
      sent := [];
      infoLog := [];
    }

    /**
     * connectDB: the pool is created before the connection is tried, so it
     * stays set even when connecting or creating the tables fails.
     */
    method ConnectDB(connects: bool, tablesCreated: bool, error: string) returns (r: Result<()>)
      modifies this
      ensures pool
      ensures r.Ok? <==> connects && tablesCreated
      ensures r.Err? ==> r.error == error
      ensures sent == old(sent) && infoLog == old(infoLog)
    {
      pool := true;
      if !connects || !tablesCreated {
        return Err(error);
      }
      r := Ok(());
    }

    /** getPool: throws until connectDB has run. */
    method GetPool() returns (r: Result<()>)
      ensures r.Ok? <==> pool
      ensures r.Err? ==> r.error == MsgNotInitialized
    {
      if !pool {
        return Err(MsgNotInitialized);
      }
      r := Ok(());
    }

    /** query: guarded by getPool; the database's answer, or its error, is passed on. */
    method Query(text: string, params: seq<JsValue>, answer: Result<seq<map<string, JsValue>>>)
      returns (r: Result<seq<map<string, JsValue>>>)
      modifies this
      ensures !pool ==> r == Err(MsgNotInitialized) && sent == old(sent)
      ensures pool ==> r == answer && sent == old(sent) + [(text, params)]
      ensures pool == old(pool) && infoLog == old(infoLog)
    {
      var guard := GetPool();
      if guard.Err? {
        return Err(guard.error);
      }
      sent := sent + [(text, params)];
      r := answer;
    }

    /**
     * callProcedure: guarded by getPool; logs the call, sends the statement and
     * returns the column named after the procedure from the first row (None
     * when the row has no such column).
     */
    method CallProcedure(name: string, params: seq<JsValue>, answer: Result<seq<map<string, JsValue>>>)
      returns (r: Result<Option<JsValue>>)
      modifies this
      ensures !pool ==> r == Err(MsgNotInitialized) && sent == old(sent) && infoLog == old(infoLog)
      ensures pool ==> && infoLog == old(infoLog) + [LogLine(name, params)]
                       && sent == old(sent) + [(QueryText(name, params), params)]
      ensures pool && answer.Err? ==> r == Err(answer.error)
      ensures pool && answer.Ok? && answer.value == [] ==> r == Err(NoRowMessage(name))
      ensures pool && answer.Ok? && answer.value != [] ==>
                r == Ok(if name in answer.value[0] then Some(answer.value[0][name]) else None)
      ensures pool == old(pool)
    {
      var guard := GetPool();
      if guard.Err? {
        return Err(guard.error);
      }
      infoLog := infoLog + [LogLine(name, params)];
      sent := sent + [(QueryText(name, params), params)];
      if answer.Err? {
        return Err(answer.error);
      }
      var rows := answer.value;
      if rows == [] {
        return Err(NoRowMessage(name));
      }
      var row := rows[0];
      r := Ok(if name in row then Some(row[name]) else None);
    }
  }
}
