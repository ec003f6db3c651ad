/** The read-only SQLite access layer of the web front end: the lazily opened module-level
    connection, and `executeQuery`'s keyword denylist in front of the SQL engine. */
module QueryStore {
  import opened Wrappers
  import opened Text

  /** A value in a result row, as better-sqlite3 hands it back. */
  datatype Cell = TextCell(s: string) | NumberCell(x: real) | NullCell

  datatype Field = Field(name: string, value: Cell)

  /** One result row: its columns in order. */
  type Row = seq<Field>

  /** The statements `executeQuery` refuses, in the order it tests them. */
  const ProhibitedWords: seq<string> := ["DROP", "DELETE", "INSERT", "UPDATE", "ALTER", "CREATE"]

  /** The first word of `words`, in list order, that occurs in `text`. */
  function FirstOccurring(words: seq<string>, text: string): (r: Option<nat>)
    ensures r.Some? ==> r.value < |words| && Contains(text, words[r.value])
    ensures r.Some? ==> forall j :: 0 <= j < r.value ==> !Contains(text, words[j])
    ensures r.None? ==> forall j :: 0 <= j < |words| ==> !Contains(text, words[j])
    decreases |words|
  {
    if |words| == 0 then None
    else if Contains(text, words[0]) then Some(0)
    else
      match FirstOccurring(words[1..], text)
      case None => None
      case Some(k) => Some(k + 1)
  }

  /** The guard of `executeQuery`: the prohibited word that rejects `sql`, if any. The test is
      a substring test on the upper-cased text, and the word reported is the first of the list
      that occurs, not the first one in the text. */
  function Prohibited(sql: string): (r: Option<string>)
    ensures r.Some? <==> exists j :: 0 <= j < |ProhibitedWords| && Contains(ToUpper(sql), ProhibitedWords[j])
    ensures r.Some? ==> exists j :: 0 <= j < |ProhibitedWords| && r.value == ProhibitedWords[j]
                                    && Contains(ToUpper(sql), r.value)
                                    && forall i :: 0 <= i < j ==> !Contains(ToUpper(sql), ProhibitedWords[i])
  {
    match FirstOccurring(ProhibitedWords, ToUpper(sql))
    case None => None
    case Some(k) => Some(ProhibitedWords[k])
  }

  /** The loop of `executeQuery` over the denylist, with its early exit. */
  method FindProhibited(sql: string) returns (word: Option<string>)
    ensures word == Prohibited(sql)
  {
    var upper := ToUpper(sql);
    var i := 0;
    while i < |ProhibitedWords|
      invariant 0 <= i <= |ProhibitedWords|
      invariant forall j :: 0 <= j < i ==> !Contains(upper, ProhibitedWords[j])
    {
      if Contains(upper, ProhibitedWords[i]) {
        FirstOccurringIs(ProhibitedWords, upper, i);
        return Some(ProhibitedWords[i]);
      }
      i := i + 1;
    }
    return None;
  }

  /** The first occurring word is the one before which nothing occurs. */
  lemma {:induction false} FirstOccurringIs(words: seq<string>, text: string, i: nat)
    requires i < |words| && Contains(text, words[i])
    requires forall j :: 0 <= j < i ==> !Contains(text, words[j])
    ensures FirstOccurring(words, text) == Some(i)
    decreases i
  {
    if i > 0 {
      FirstOccurringIs(words[1..], text, i - 1);
    }
  }

  /** What the SQL engine does with a statement that passed the guard: it either returns rows
      or throws (the text of the thrown error is given). */
  datatype EngineOutcome = EngineRows(rows: seq<Row>) | EngineError(message: string)

  /** What `executeQuery` returns or throws. */
  datatype QueryResult = Rows(rows: seq<Row>) | Thrown(message: string)

  /** `executeQuery(sql)` once the connection is open: a rejected statement throws naming the
      word and never reaches the engine; an engine failure is rethrown with a prefix. */
  function RunQuery(sql: string, engine: EngineOutcome): (r: QueryResult)
    ensures Prohibited(sql).Some? ==> r == Thrown("Query contains prohibited operation: " + Prohibited(sql).value)
    ensures Prohibited(sql).None? && engine.EngineRows? ==> r == Rows(engine.rows)
    ensures Prohibited(sql).None? && engine.EngineError? ==> r == Thrown("SQL execution error: " + engine.message)
  {
    match Prohibited(sql)
    case Some(w) => Thrown("Query contains prohibited operation: " + w)
    case None =>
      match engine
      case EngineRows(rows) => Rows(rows)
      case EngineError(m) => Thrown("SQL execution error: " + m)
  }

  /** A rejected statement gets the same answer whatever the engine would have done. */
  lemma RejectedNeverRuns(sql: string, e1: EngineOutcome, e2: EngineOutcome)
    requires Prohibited(sql).Some?
    ensures RunQuery(sql, e1) == RunQuery(sql, e2) && RunQuery(sql, e1).Thrown?
  {
  }

  /** Upper-casing distributes over concatenation. */
  lemma ToUpperAppend(a: string, b: string)
    ensures ToUpper(a + b) == ToUpper(a) + ToUpper(b)
  {
  }

  /** A statement carrying "drop" in any letter case is refused with DROP named, wherever the
      word stands. */
  lemma DropAnyCaseRejected(before: string, drop: string, after: string)
    requires |drop| == 4 && ToUpper(drop) == "DROP"
    ensures Prohibited(before + drop + after) == Some("DROP")
  {
    ToUpperAppend(before + drop, after);
    ToUpperAppend(before, drop);
    ContainsInfix(ToUpper(before), "DROP", ToUpper(after));
  }

  /** The substring test refuses harmless text: a column named `created_at` contains CREATE. */
  lemma CreatedAtRejected(before: string, after: string)
    ensures Prohibited(before + "created_at" + after).Some?
  {
    var s := before + "created_at" + after;
    ToUpperAppend(before + "created_at", after);
    ToUpperAppend(before, "created_at");
    assert ToUpper("created_at") == "CREATE" + "D_AT";
    assert ToUpper(s) == ToUpper(before) + "CREATE" + ("D_AT" + ToUpper(after));
    ContainsInfix(ToUpper(before), "CREATE", "D_AT" + ToUpper(after));
    assert Contains(ToUpper(s), ProhibitedWords[5]);
  }

  /** An opened connection; `serial` tells connections apart. */
  datatype Connection = Connection(serial: nat)

  /** The module-level `db` variable of the access layer and the engine behind it. */
  class Database {
    var db: Option<Connection>
    /** How many connections have been opened so far. */
    var openCount: nat
    /** Every statement handed to the engine, in order. */
    var prepared: seq<string>

    constructor ()
      ensures db == None && openCount == 0 && prepared == []
    {
      db := None;
      openCount := 0;
      prepared := [];
    }

    /** `getDatabase()`: opens a connection only when none is held, and returns the held one. */
    method GetDatabase() returns (c: Connection)
      modifies this
      ensures db == Some(c)
      ensures old(db).Some? ==> c == old(db).value && openCount == old(openCount)
      ensures old(db).None? ==> c == Connection(old(openCount)) && openCount == old(openCount) + 1
      ensures prepared == old(prepared)
    {
      if db.None? {
        db := Some(Connection(openCount));
        openCount := openCount + 1;
      }
      c := db.value;
    }

    /** `closeDatabase()`: drops the held connection, if any. */
    method CloseDatabase()
      modifies this
      ensures db == None
      ensures openCount == old(openCount) && prepared == old(prepared)
    {
      if db.Some? {
        db := None;
      }
    }

    /** `executeQuery(sql)`: opens the connection if needed, then guards and runs `sql`. */
    method ExecuteQuery(sql: string, engine: EngineOutcome) returns (r: QueryResult)
      modifies this
      ensures r == RunQuery(sql, engine)
      ensures db.Some? && (old(db).Some? ==> db == old(db))
      ensures prepared == if Prohibited(sql).Some? then old(prepared) else old(prepared) + [sql]
    {
      var _ := GetDatabase();
      var word := FindProhibited(sql);
      if word.Some? {
        return Thrown("Query contains prohibited operation: " + word.value);
      }
      prepared := prepared + [sql];
      match engine
      case EngineRows(rows) => r := Rows(rows);
      case EngineError(m) => r := Thrown("SQL execution error: " + m);
    }
  }
}
