// The query layer over the Postgres driver: the `sql` template builder, the
// placeholder splitting done before calling the driver, the read and write
// statement guards, the injection patterns, parameter sanitising and the
// argument checks of the common operations. The driver is not modelled: an
// accepted call is represented by the request it would hand over.
module SecureDb {
  import opened Wrappers
  import Text
  import JsValue
  import Validation

  type Value = JsValue.Value

  // ---------------------------------------------------------------- placeholders

  /** `$n`. */
  function Placeholder(n: nat): (r: string)
    ensures |r| >= 2 && r[0] == '$' && r[1..] == Text.NatToString(n)
  {
    "$" + Text.NatToString(n)
  }

  /**
   * `strings[0]`, `ph(next)`, `strings[1]`, `ph(next + 1)`, … with a
   * placeholder after each of the first `holes` strings. The placeholder
   * spelling is a parameter so that the reasoning below does not depend on
   * how numbers are printed.
   */
  function InterleaveWith(strings: seq<string>, holes: nat, next: nat, ph: nat -> string): string
    decreases |strings|
  {
    if |strings| == 0 then ""
    else strings[0] + (if holes > 0 then ph(next) else "")
         + InterleaveWith(strings[1..], if holes > 0 then holes - 1 else 0, next + 1, ph)
  }

  /** The text `sql()` builds, with `$n` placeholders. */
  function Interleave(strings: seq<string>, holes: nat, next: nat): string
  {
    InterleaveWith(strings, holes, next, Placeholder)
  }

  function Min(a: nat, b: nat): nat { if a < b then a else b }

  /** Placeholders still to come once `i` template strings are consumed. */
  function HolesAfter(count: nat, i: nat): nat { if i < count then count - i else 0 }

  /**
   * The loop of `sql()`: each template string, then, while values remain,
   * the next value's placeholder, numbered by how many values were taken.
   */
  method BuildQuery(strings: seq<string>, values: seq<Value>) returns (query: string, params: seq<Value>)
    ensures query == Interleave(strings, |values|, 1)
    ensures params == values[..Min(|strings|, |values|)]
  {
    query := "";
    params := [];
    for i := 0 to |strings|
      invariant query + Interleave(strings[i..], HolesAfter(|values|, i), i + 1) == Interleave(strings, |values|, 1)
      invariant params == values[..Min(i, |values|)]
    {
      InterleaveStep(query, strings, |values|, i);
      query := query + strings[i];
      if i < |values| {
        params := params + [values[i]];
        query := query + Placeholder(|params|);
      }
    }
  }

  /** One template string of the loop, with its placeholder if a value remains, moves into the built text `q`. */
  lemma InterleaveStep(q: string, strings: seq<string>, count: nat, i: nat)
    requires i < |strings|
    ensures q + Interleave(strings[i..], HolesAfter(count, i), i + 1)
         == (if i < count then q + strings[i] + Placeholder(i + 1) else q + strings[i])
            + Interleave(strings[i + 1..], HolesAfter(count, i + 1), i + 2)
  {
    assert strings[i..][1..] == strings[i + 1..];
    var rest := Interleave(strings[i + 1..], HolesAfter(count, i + 1), i + 2);
    if i < count {
      assert q + (strings[i] + Placeholder(i + 1) + rest) == (q + strings[i] + Placeholder(i + 1)) + rest;
    } else {
      assert q + (strings[i] + "" + rest) == (q + strings[i]) + rest;
    }
  }

  // ---------------------------------------------------------------- injection patterns

  predicate AllSpace(s: string, from: nat, to: nat)
    requires from <= to <= |s|
  {
    forall i :: from <= i < to ==> Text.IsSpace(s[i])
  }

  /** `kw` at `i`, compared case-insensitively (`kw` is lower-case ASCII). */
  predicate KeywordAt(s: string, i: nat, kw: string)
  {
    i + |kw| <= |s| && Text.Lower(s[i..i + |kw|]) == kw
  }

  const StatementKeywords: seq<string> := ["drop", "alter", "truncate", "delete", "insert", "update"]

  /** `(drop|alter|truncate|delete|insert|update)\s+` at `j`. */
  predicate StatementKeywordAt(s: string, j: nat)
  {
    exists kw :: kw in StatementKeywords && KeywordAt(s, j, kw) && j + |kw| < |s| && Text.IsSpace(s[j + |kw|])
  }

  /** `;\s*(drop|alter|truncate|delete|insert|update)\s+` starting at the `;` at `i`. */
  predicate ChainedStatementAt(s: string, i: nat)
  {
    i < |s| && s[i] == ';' && exists j :: i < j <= |s| && AllSpace(s, i + 1, j) && StatementKeywordAt(s, j)
  }

  /** `union\s+select` at `i`. */
  predicate UnionSelectAt(s: string, i: nat)
  {
    KeywordAt(s, i, "union") && exists j :: i + 5 < j <= |s| && AllSpace(s, i + 5, j) && KeywordAt(s, j, "select")
  }

  /** `;\s*$`: a semicolon followed by nothing but white space. */
  predicate TrailingSemicolonAt(s: string, i: nat)
  {
    i < |s| && s[i] == ';' && AllSpace(s, i + 1, |s|)
  }

  datatype SqlPattern = ChainedStatement | UnionSelect | BlockComment | LineComment | TrailingSemicolon

  const DangerousPatterns: seq<SqlPattern> := [ChainedStatement, UnionSelect, BlockComment, LineComment, TrailingSemicolon]

  /** Whether the regular expression tests true somewhere in `s`. */
  predicate Matches(p: SqlPattern, s: string)
  {
    match p
    case ChainedStatement => exists i :: 0 <= i < |s| && ChainedStatementAt(s, i)
    case UnionSelect => exists i :: 0 <= i < |s| && UnionSelectAt(s, i)
    // `\/\*[\s\S]*?\*\/`: an opening `/*` with a `*/` somewhere after it
    case BlockComment => exists i :: 0 <= i && i + 2 <= |s| && Text.OccursAt(s, "/*", i) && Text.Includes(s[i + 2..], "*/")
    // `--[^\r\n]*`: two dashes, whatever follows
    case LineComment => Text.Includes(s, "--")
    case TrailingSemicolon => exists i :: 0 <= i < |s| && TrailingSemicolonAt(s, i)
  }

  const DangerousSql: string := "Potentially dangerous SQL detected"

  function FirstMatch(patterns: seq<SqlPattern>, s: string): (r: bool)
    ensures r <==> exists p :: p in patterns && Matches(p, s)
  {
    if |patterns| == 0 then false else Matches(patterns[0], s) || FirstMatch(patterns[1..], s)
  }

  /** `validateSqlQuery`: the text is refused when any of the patterns is found in it. */
  function ValidateSqlQuery(sql: string): (r: Result<(), string>)
    ensures r.Failure? <==> exists p :: p in DangerousPatterns && Matches(p, sql)
    ensures r.Failure? ==> r.error == DangerousSql
  {
    if FirstMatch(DangerousPatterns, sql) then Failure(DangerousSql) else Success(())
  }

  /** A second statement after a semicolon is refused, whatever precedes or follows it. */
  lemma ChainedDropRefused(q: string, rest: string)
    ensures ValidateSqlQuery(q + "; drop " + rest).Failure?
  {
    var s := q + "; drop " + rest;
    var i := |q|;
    assert s[i] == ';' && s[i + 1] == ' ' && s[i + 6] == ' ';
    assert s[i + 2..i + 6] == "drop";
    assert Text.Lower("drop") == "drop";
    assert StatementKeywordAt(s, i + 2);
    assert AllSpace(s, i + 1, i + 2);
    assert ChainedStatementAt(s, i);
    assert Matches(ChainedStatement, s);
  }

  /** A line comment anywhere is refused. */
  lemma LineCommentRefused(a: string, b: string)
    ensures ValidateSqlQuery(a + "--" + b).Failure?
  {
    Text.IncludesWithin(a, "--", b, "--");
    Text.IncludesSelf("--");
    assert Matches(LineComment, a + "--" + b);
  }

  /** A block comment anywhere is refused. */
  lemma BlockCommentRefused(a: string, body: string, b: string)
    ensures ValidateSqlQuery(a + "/*" + body + "*/" + b).Failure?
  {
    var s := a + "/*" + body + "*/" + b;
    assert s[|a|..|a| + 2] == "/*";
    assert s[|a| + 2..] == body + "*/" + b;
    Text.IncludesSelf("*/");
    Text.IncludesWithin(body, "*/", b, "*/");
    assert Text.OccursAt(s, "/*", |a|);
    assert Text.Includes(s[|a| + 2..], "*/");
    assert Matches(BlockComment, s);
  }

  /** A statement ended by a semicolon is refused. */
  lemma TrailingSemicolonRefused(q: string)
    ensures ValidateSqlQuery(q + ";").Failure?
  {
    var s := q + ";";
    assert TrailingSemicolonAt(s, |q|);
    assert Matches(TrailingSemicolon, s);
  }

  /** `sql()`: the text it builds must pass `validateSqlQuery`. */
  method Sql(strings: seq<string>, values: seq<Value>) returns (r: Result<(string, seq<Value>), string>)
    ensures r.Failure? <==> ValidateSqlQuery(Interleave(strings, |values|, 1)).Failure?
    ensures r.Failure? ==> r.error == DangerousSql
    ensures r.Success? ==> r.value == (Interleave(strings, |values|, 1), values[..Min(|strings|, |values|)])
  {
    var query, params := BuildQuery(strings, values);
    var check := ValidateSqlQuery(query);
    if check.Failure? {
      return Failure(check.error);
    }
    return Success((query, params));
  }

  // ---------------------------------------------------------------- placeholder splitting

  /**
   * The loop of `executeNeonQuery`: cut at the first `ph(k)`, then look for
   * `ph(k + 1)` in what follows, until a placeholder is missing or every
   * parameter has been used.
   */
  function SplitWith(current: string, params: seq<Value>, k: nat, ph: nat -> string): (seq<string>, seq<Value>)
    requires k >= 1
    decreases |params| + 1 - k
  {
    if k > |params| then ([current], [])
    else
      var p := ph(k);
      var at := Text.IndexOf(current, p);
      if at < 0 then ([current], [])
      else
        var rest := SplitWith(current[at + |p|..], params, k + 1, ph);
        ([current[..at]] + rest.0, [params[k - 1]] + rest.1)
  }

  /** The split with `$n` placeholders. */
  function PlaceholderSplit(current: string, params: seq<Value>, k: nat): (seq<string>, seq<Value>)
    requires k >= 1
  {
    SplitWith(current, params, k, Placeholder)
  }

  /** The loop of `executeNeonQuery`, for a given placeholder spelling. */
  method SplitLoop(sql: string, params: seq<Value>, ph: nat -> string) returns (parts: seq<string>, values: seq<Value>)
    ensures (parts, values) == SplitWith(sql, params, 1, ph)
  {
    parts := [];
    values := [];
    var current := sql;
    var index := 1;
    while index <= |params|
      invariant 1 <= index <= |params| + 1
      invariant parts + SplitWith(current, params, index, ph).0 == SplitWith(sql, params, 1, ph).0
      invariant values + SplitWith(current, params, index, ph).1 == SplitWith(sql, params, 1, ph).1
      decreases |params| + 1 - index
    {
      var p := ph(index);
      var at := Text.IndexOf(current, p);
      SplitStep(current, params, index, ph);
      if at == -1 {
        break;
      }
      ghost var rest := SplitWith(current[at + |p|..], params, index + 1, ph);
      assert (parts + [current[..at]]) + rest.0 == parts + ([current[..at]] + rest.0);
      assert (values + [params[index - 1]]) + rest.1 == values + ([params[index - 1]] + rest.1);
      parts := parts + [current[..at]];
      values := values + [params[index - 1]];
      current := current[at + |p|..];
      index := index + 1;
    }
    if index > |params| {
      SplitEnd(current, params, index, ph);
    }
    assert values + [] == values;
    parts := parts + [current];
  }

  /** The text cut at `$1`, `$2`, … and the parameters those placeholders use. */
  method SplitPlaceholders(sql: string, params: seq<Value>) returns (parts: seq<string>, values: seq<Value>)
    ensures (parts, values) == PlaceholderSplit(sql, params, 1)
  {
    parts, values := SplitLoop(sql, params, Placeholder);
  }

  /** One step of the split: the part before `ph(k)`, then the split of what follows it. */
  lemma SplitStep(current: string, params: seq<Value>, k: nat, ph: nat -> string)
    requires 1 <= k <= |params|
    ensures var at := Text.IndexOf(current, ph(k));
      if at < 0 then SplitWith(current, params, k, ph) == ([current], [])
      else
        at + |ph(k)| <= |current| &&
        var rest := SplitWith(current[at + |ph(k)|..], params, k + 1, ph);
        SplitWith(current, params, k, ph) == ([current[..at]] + rest.0, [params[k - 1]] + rest.1)
  {
  }

  /** Once the parameters are used up or `ph(k)` is missing, the rest is the last part. */
  lemma SplitEnd(current: string, params: seq<Value>, k: nat, ph: nat -> string)
    requires k >= 1 && (k > |params| || Text.IndexOf(current, ph(k)) < 0)
    ensures SplitWith(current, params, k, ph) == ([current], [])
  {
  }

  /** `InterleaveWith` on a non-empty list with a placeholder to place. */
  lemma InterleaveCons(parts: seq<string>, holes: nat, k: nat, ph: nat -> string)
    requires |parts| >= 1 && holes >= 1
    ensures InterleaveWith(parts, holes, k, ph) == parts[0] + ph(k) + InterleaveWith(parts[1..], holes - 1, k + 1, ph)
  {
  }

  /** `InterleaveWith` on one string and no placeholder. */
  lemma InterleaveOne(part: string, k: nat, ph: nat -> string)
    ensures InterleaveWith([part], 0, k, ph) == part
  {
    assert [part][1..] == [];
  }

  lemma ConsSlice<T>(s: seq<T>, a: nat, n: nat)
    requires a + 1 + n <= |s|
    ensures [s[a]] + s[a + 1..a + 1 + n] == s[a..a + 1 + n]
  {
  }

  /** One more part than values, and the values are the parameters in order. */
  lemma {:induction false} SplitShape(current: string, params: seq<Value>, k: nat, ph: nat -> string)
    requires 1 <= k <= |params| + 1
    ensures var r := SplitWith(current, params, k, ph);
      |r.0| == |r.1| + 1 && k - 1 + |r.1| <= |params| && r.1 == params[k - 1..k - 1 + |r.1|]
    decreases |params| + 1 - k
  {
    if k <= |params| && Text.IndexOf(current, ph(k)) >= 0 {
      var p := ph(k);
      var at := Text.IndexOf(current, p);
      SplitStep(current, params, k, ph);
      var tail := current[at + |p|..];
      SplitShape(tail, params, k + 1, ph);
      var rest := SplitWith(tail, params, k + 1, ph);
      assert SplitWith(current, params, k, ph) == ([current[..at]] + rest.0, [params[k - 1]] + rest.1);
      ConsSlice(params, k - 1, |rest.1|);
    } else {
      SplitEnd(current, params, k, ph);
    }
  }

  /** Putting the placeholders back between the parts gives the original text. */
  lemma {:induction false} SplitReassembles(current: string, params: seq<Value>, k: nat, ph: nat -> string)
    requires k >= 1
    ensures var r := SplitWith(current, params, k, ph);
      InterleaveWith(r.0, |r.1|, k, ph) == current
    decreases |params| + 1 - k
  {
    var r := SplitWith(current, params, k, ph);
    if k <= |params| && Text.IndexOf(current, ph(k)) >= 0 {
      var p := ph(k);
      var at := Text.IndexOf(current, p);
      SplitStep(current, params, k, ph);
      var tail := current[at + |p|..];
      SplitReassembles(tail, params, k + 1, ph);
      var rest := SplitWith(tail, params, k + 1, ph);
      assert r.0[1..] == rest.0;
      InterleaveCons(r.0, |r.1|, k, ph);
      assert current == current[..at] + p + tail;
    } else {
      SplitEnd(current, params, k, ph);
      InterleaveOne(current, k, ph);
    }
  }

  /** The first placeholder of a text whose prefix has no `$` sits right after that prefix. */
  lemma IndexOfPlaceholder(a: string, p: string, b: string)
    requires '$' !in a && |p| > 0 && p[0] == '$'
    ensures Text.IndexOf(a + p + b, p) == |a|
  {
    var s := a + p + b;
    assert s[|a|..|a| + |p|] == p;
    assert Text.OccursAt(s, p, |a|);
    Text.IndexOfFromFirst(s, p, 0);
    assert forall i :: 0 <= i < |a| ==> s[i] == a[i] && !Text.OccursAt(s, p, i);
  }

  /** A `$`-free prefix followed by `ph(k)` is the next part of the split. */
  lemma SplitAfterPrefix(whole: string, a: string, tail: string, params: seq<Value>, k: nat, ph: nat -> string)
    requires 1 <= k <= |params|
    requires '$' !in a && |ph(k)| > 0 && ph(k)[0] == '$'
    requires whole == a + ph(k) + tail
    ensures var rest := SplitWith(tail, params, k + 1, ph);
      SplitWith(whole, params, k, ph) == ([a] + rest.0, [params[k - 1]] + rest.1)
  {
    var p := ph(k);
    IndexOfPlaceholder(a, p, tail);
    assert whole[..|a|] == a;
    assert whole[|a| + |p|..] == tail;
    SplitStep(whole, params, k, ph);
  }

  /** The inductive step of the round trip: one more `$`-free string in front. */
  lemma RoundTripStep(strings: seq<string>, params: seq<Value>, k: nat, ph: nat -> string, whole: string, tail: string)
    requires |strings| > 1 && 1 <= k <= |params|
    requires '$' !in strings[0] && |ph(k)| > 0 && ph(k)[0] == '$'
    requires whole == strings[0] + ph(k) + tail
    requires SplitWith(tail, params, k + 1, ph) == (strings[1..], params[k..])
    ensures SplitWith(whole, params, k, ph) == (strings, params[k - 1..])
  {
    SplitAfterPrefix(whole, strings[0], tail, params, k, ph);
    assert strings == [strings[0]] + strings[1..];
    assert params[k - 1..] == [params[k - 1]] + params[k..];
  }

  /** Splitting what `InterleaveWith` built from `$`-free strings gives the strings and values back. */
  lemma {:induction false} InterleaveSplitRoundTrip(strings: seq<string>, params: seq<Value>, k: nat, ph: nat -> string)
    requires k >= 1 && |strings| >= 1 && k - 1 + |strings| - 1 == |params|
    requires forall n :: |ph(n)| > 0 && ph(n)[0] == '$'
    requires forall i :: 0 <= i < |strings| ==> '$' !in strings[i]
    ensures SplitWith(InterleaveWith(strings, |strings| - 1, k, ph), params, k, ph) == (strings, params[k - 1..])
    decreases |strings|
  {
    var whole := InterleaveWith(strings, |strings| - 1, k, ph);
    if |strings| > 1 {
      var rest := strings[1..];
      var tail := InterleaveWith(rest, |strings| - 2, k + 1, ph);
      InterleaveCons(strings, |strings| - 1, k, ph);
      assert forall i :: 0 <= i < |rest| ==> '$' !in rest[i] by {
        forall i | 0 <= i < |rest| ensures '$' !in rest[i] {
          assert rest[i] == strings[i + 1];
        }
      }
      InterleaveSplitRoundTrip(rest, params, k + 1, ph);
      RoundTripStep(strings, params, k, ph, whole, tail);
    } else {
      assert strings == [strings[0]];
      InterleaveOne(strings[0], k, ph);
      SplitEnd(whole, params, k, ph);
      assert params[k - 1..] == [];
    }
  }

  /**
   * The round trip between `sql()` and the driver call: a template of
   * `$`-free strings is split back into the same strings and values.
   */
  lemma SqlSplitRoundTrip(strings: seq<string>, values: seq<Value>)
    requires |strings| == |values| + 1
    requires forall i :: 0 <= i < |strings| ==> '$' !in strings[i]
    ensures PlaceholderSplit(Interleave(strings, |values|, 1), values, 1) == (strings, values)
  {
    InterleaveSplitRoundTrip(strings, values, 1, Placeholder);
    assert values[0..] == values;
  }

  /** The driver call's split has one more part than values, and the values are the parameters in order. */
  lemma PlaceholderSplitShape(sql: string, params: seq<Value>)
    ensures var r := PlaceholderSplit(sql, params, 1);
      |r.0| == |r.1| + 1 && |r.1| <= |params| && r.1 == params[..|r.1|]
  {
    SplitShape(sql, params, 1, Placeholder);
  }

  /** Putting `$1`, `$2`, … back between the parts of the split gives the text handed in. */
  lemma PlaceholderSplitReassembles(sql: string, params: seq<Value>)
    ensures var r := PlaceholderSplit(sql, params, 1);
      Interleave(r.0, |r.1|, 1) == sql
  {
    SplitReassembles(sql, params, 1, Placeholder);
  }

  // ---------------------------------------------------------------- statement guards

  /** `sql.trim().toLowerCase()`. */
  function Normalized(sql: string): string
  {
    Text.Lower(Text.Trim(sql))
  }

  predicate IsReadStatement(sql: string)
  {
    var t := Normalized(sql);
    Text.StartsWith(t, "select") || Text.StartsWith(t, "with")
  }

  const WriteOperations: seq<string> := ["insert", "update", "delete"]

  predicate IsWriteStatement(sql: string)
  {
    exists op :: op in WriteOperations && Text.StartsWith(Normalized(sql), op)
  }

  /** What `query` receives: the text, the parameters and the logging context. */
  datatype DbRequest = DbRequest(sql: string, params: seq<Value>, userId: Option<string>, action: string)

  const ReadOnly: string := "queryRead only allows SELECT and WITH statements"
  const WriteOnly: string := "queryWrite only allows INSERT, UPDATE, and DELETE statements"

  /** `queryRead`: the context's action is replaced by `read`. */
  function QueryRead(sql: string, params: seq<Value>, userId: Option<string>): (r: Result<DbRequest, string>)
    ensures r.Success? <==> IsReadStatement(sql)
    ensures r.Success? ==> r.value == DbRequest(sql, params, userId, "read")
    ensures r.Failure? ==> r.error == ReadOnly
  {
    if !IsReadStatement(sql) then Failure(ReadOnly) else Success(DbRequest(sql, params, userId, "read"))
  }

  /** `queryWrite`: the context's action is replaced by `write`. */
  function QueryWrite(sql: string, params: seq<Value>, userId: Option<string>): (r: Result<DbRequest, string>)
    ensures r.Success? <==> IsWriteStatement(sql)
    ensures r.Success? ==> r.value == DbRequest(sql, params, userId, "write")
    ensures r.Failure? ==> r.error == WriteOnly
  {
    if !IsWriteStatement(sql) then Failure(WriteOnly) else Success(DbRequest(sql, params, userId, "write"))
  }

  /** No statement passes both guards. */
  lemma GuardsExclusive(sql: string)
    ensures !(IsReadStatement(sql) && IsWriteStatement(sql))
  {
    var t := Normalized(sql);
    if IsWriteStatement(sql) {
      var op :| op in WriteOperations && Text.StartsWith(t, op);
      StartsWithHead(t, op);
      if Text.StartsWith(t, "select") {
        StartsWithHead(t, "select");
      }
      if Text.StartsWith(t, "with") {
        StartsWithHead(t, "with");
      }
    }
  }

  lemma StartsWithHead(t: string, p: string)
    requires |p| > 0 && Text.StartsWith(t, p)
    ensures |t| > 0 && t[0] == p[0]
  {
    assert t[..|p|][0] == p[0];
  }

  /** A keyword in any case after leading white space decides the guards. */
  lemma NormalizedStartsWith(pre: string, kw: string, rest: string, post: string)
    requires forall i :: 0 <= i < |pre| ==> Text.IsSpace(pre[i])
    requires forall i :: 0 <= i < |post| ==> Text.IsSpace(post[i])
    requires |kw| > 0 && !Text.IsSpace(kw[0])
    requires |rest| > 0 && !Text.IsSpace(rest[|rest| - 1])
    ensures Text.StartsWith(Normalized(pre + (kw + rest) + post), Text.Lower(kw))
  {
    Text.TrimAround(pre, kw + rest, post);
    Text.LowerAppend(kw, rest);
  }

  // ---------------------------------------------------------------- parameter sanitising

  /** `Object.entries`: an array's entries are keyed by index. */
  function Entries(v: Value): (r: seq<JsValue.Field>)
    ensures v.Obj? ==> r == v.fields
    ensures v.Arr? ==> |r| == |v.items| && forall i :: 0 <= i < |r| ==> r[i] == JsValue.Field(Text.NatToString(i), v.items[i])
    ensures forall i :: 0 <= i < |r| ==> r[i].value < v
  {
    match v
    case Obj(fields) => fields
    case Arr(items) => seq(|items|, i requires 0 <= i < |items| => JsValue.Field(Text.NatToString(i), items[i]))
    case _ => []
  }

  const InvalidNumber: string := "Invalid number for parameter: "
  const Unsupported: string := "Unsupported parameter type for key: "

  /** One entry of `sanitizeParams`, by the type of its value. */
  function SanitizedValue(key: string, v: Value): Result<Value, string>
    decreases v
  {
    match v
    // A string is trimmed. The source then re-checks a UUID-shaped string with
    // `isValidUUID`, whose pattern is the one that recognised it, so that
    // throw is never reached and is not modelled.
    case Str(s) => Success(JsValue.Str(Text.Trim(s)))
    case Number(n) => if n.Finite? then Success(v) else Failure(InvalidNumber + key)
    case Null => Success(v)
    case Undefined => Success(v)
    case Bool(_) => Success(v)
    case Arr(items) =>
      var mapped := SanitizedItems(v, 0);
      if mapped.Failure? then Failure(mapped.error) else Success(JsValue.Arr(mapped.value))
    case Obj(_) => SanitizedObject(v)
    case Other => Failure(Unsupported + key)
  }

  /**
   * By type: strings are trimmed, finite numbers, `null`, `undefined` and
   * booleans kept, non-finite numbers and functions refused, arrays stay
   * arrays of the same length and objects become objects.
   */
  lemma SanitizedValueCases(key: string, v: Value)
    ensures var r := SanitizedValue(key, v);
      (v.Str? ==> r == Success(JsValue.Str(Text.Trim(v.s))))
      && (v.Number? ==> (r.Success? <==> v.n.Finite?) && (r.Success? ==> r.value == v))
      && (v.Number? && !v.n.Finite? ==> r == Failure(InvalidNumber + key))
      && (v.Null? || v.Undefined? || v.Bool? ==> r == Success(v))
      && (v.Other? ==> r == Failure(Unsupported + key))
      && (r.Success? && v.Arr? ==> r.value.Arr? && |r.value.items| == |v.items|)
      && (r.Success? && v.Obj? ==> r.value.Obj?)
  {
  }

  /** `value.map(...)` over an array: objects and arrays are sanitised, anything else kept as it is. */
  function SanitizedItems(owner: Value, j: nat): (r: Result<seq<Value>, string>)
    requires owner.Arr? && j <= |owner.items|
    ensures r.Success? ==> |r.value| == |owner.items| - j
    decreases owner, 0, |owner.items| - j
  {
    if j == |owner.items| then Success([])
    else
      var item := owner.items[j];
      var head := if item.Obj? || item.Arr? then SanitizedObject(item) else Success(item);
      if head.Failure? then Failure(head.error)
      else
        var tail := SanitizedItems(owner, j + 1);
        if tail.Failure? then Failure(tail.error) else Success([head.value] + tail.value)
  }

  /** The entry loop of `sanitizeParams` from entry `i` on, with `acc` filled so far. */
  function SanitizedEntries(owner: Value, i: nat, acc: seq<JsValue.Field>): Result<seq<JsValue.Field>, string>
    requires i <= |Entries(owner)|
    decreases owner, 0, |Entries(owner)| - i
  {
    if i == |Entries(owner)| then Success(acc)
    else
      var e := Entries(owner)[i];
      var x := SanitizedValue(e.key, e.value);
      if x.Failure? then Failure(x.error) else SanitizedEntries(owner, i + 1, JsValue.Assign(acc, e.key, x.value))
  }

  /** One accepted entry advances the loop by one assignment. */
  lemma EntriesStep(owner: Value, i: nat, acc: seq<JsValue.Field>)
    requires i < |Entries(owner)|
    requires SanitizedValue(Entries(owner)[i].key, Entries(owner)[i].value).Success?
    ensures SanitizedEntries(owner, i, acc)
      == SanitizedEntries(owner, i + 1, JsValue.Assign(acc, Entries(owner)[i].key,
                                                       SanitizedValue(Entries(owner)[i].key, Entries(owner)[i].value).value))
  {
  }

  /** `sanitizeParams(owner)`: a fresh object. */
  function SanitizedObject(owner: Value): (r: Result<Value, string>)
    ensures r.Success? ==> r.value.Obj?
    decreases owner, 0, |Entries(owner)| + 1
  {
    var fields := SanitizedEntries(owner, 0, []);
    if fields.Failure? then Failure(fields.error) else Success(JsValue.Obj(fields.value))
  }

  /** `acc` in front of a successful rest; a failure stays a failure. */
  function Prepend(acc: seq<Value>, rest: Result<seq<Value>, string>): (r: Result<seq<Value>, string>)
    ensures acc == [] ==> r == rest
  {
    if rest.Failure? then rest
    else
      assert acc == [] ==> acc + rest.value == rest.value;
      Success(acc + rest.value)
  }

  /** One element of the array loop, sanitised to `h`, moves from the rest to the front. */
  lemma ItemsStep(v: Value, j: nat, out: seq<Value>, h: Value)
    requires v.Arr? && j < |v.items|
    requires (if v.items[j].Obj? || v.items[j].Arr? then SanitizedObject(v.items[j]) else Success(v.items[j])) == Success(h)
    ensures Prepend(out, SanitizedItems(v, j)) == Prepend(out + [h], SanitizedItems(v, j + 1))
  {
    var tail := SanitizedItems(v, j + 1);
    if tail.Success? {
      assert out + ([h] + tail.value) == (out + [h]) + tail.value;
    }
  }

  /** `sanitizeParams`, looping over the entries and filling a fresh object. */
  method SanitizeParams(owner: Value) returns (r: Result<Value, string>)
    ensures r == SanitizedObject(owner)
    decreases owner, 0, |Entries(owner)| + 1
  {
    var entries := Entries(owner);
    var sanitized: seq<JsValue.Field> := [];
    var i := 0;
    while i < |entries|
      invariant 0 <= i <= |entries|
      invariant SanitizedEntries(owner, 0, []) == SanitizedEntries(owner, i, sanitized)
    {
      var e := entries[i];
      var x := SanitizeValue(e.key, e.value);
      if x.Failure? {
        return Failure(x.error);
      }
      sanitized := JsValue.Assign(sanitized, e.key, x.value);
      i := i + 1;
    }
    return Success(JsValue.Obj(sanitized));
  }

  method SanitizeValue(key: string, v: Value) returns (r: Result<Value, string>)
    ensures r == SanitizedValue(key, v)
    decreases v
  {
    match v {
      case Arr(items) =>
        var out: seq<Value> := [];
        var j := 0;
        while j < |items|
          invariant 0 <= j <= |items|
          invariant SanitizedItems(v, 0) == Prepend(out, SanitizedItems(v, j))
        {
          var item := items[j];
          if item.Obj? || item.Arr? {
            var x := SanitizeParams(item);
            if x.Failure? {
              return Failure(x.error);
            }
            ItemsStep(v, j, out, x.value);
            out := out + [x.value];
          } else {
            ItemsStep(v, j, out, item);
            out := out + [item];
          }
          j := j + 1;
        }
        assert out + [] == out;
        return Success(JsValue.Arr(out));
      case Obj(_) =>
        r := SanitizeParams(v);
      case _ =>
        r := SanitizedValue(key, v);
    }
  }

  /** What `sanitizeParams` accepts: no non-finite number and no function or symbol where it looks. */
  predicate Acceptable(v: Value)
    decreases v, 1
  {
    match v
    case Number(n) => n.Finite?
    case Other => false
    case Obj(_) => EntriesAcceptable(v)
    // array elements that are not objects are kept unexamined
    case Arr(items) => forall j :: 0 <= j < |items| ==> (items[j].Obj? || items[j].Arr?) ==> EntriesAcceptable(items[j])
    case _ => true
  }

  predicate EntriesAcceptable(owner: Value)
    decreases owner, 0
  {
    forall i :: 0 <= i < |Entries(owner)| ==> Acceptable(Entries(owner)[i].value)
  }

  /** The entries from the `i`-th on are all acceptable. */
  predicate AcceptableFrom(owner: Value, i: nat)
  {
    forall j :: i <= j < |Entries(owner)| ==> Acceptable(Entries(owner)[j].value)
  }

  lemma AcceptableFromStep(owner: Value, i: nat)
    requires i < |Entries(owner)|
    ensures AcceptableFrom(owner, i) <==> Acceptable(Entries(owner)[i].value) && AcceptableFrom(owner, i + 1)
  {
  }

  lemma {:induction false} SanitizedValueSucceeds(key: string, v: Value)
    ensures SanitizedValue(key, v).Success? <==> Acceptable(v)
    decreases v, 1
  {
    match v
    case Obj(_) =>
      SanitizedEntriesSucceed(v, 0, []);
    case Arr(items) =>
      SanitizedItemsSucceed(v, 0);
    case _ =>
  }

  lemma {:induction false} SanitizedItemsSucceed(owner: Value, j: nat)
    requires owner.Arr? && j <= |owner.items|
    ensures SanitizedItems(owner, j).Success? <==>
      forall i :: j <= i < |owner.items| ==> (owner.items[i].Obj? || owner.items[i].Arr?) ==> EntriesAcceptable(owner.items[i])
    decreases owner, 0, |owner.items| - j
  {
    var items := owner.items;
    if j < |items| {
      var item := items[j];
      var ok := (item.Obj? || item.Arr?) ==> EntriesAcceptable(item);
      if item.Obj? || item.Arr? {
        SanitizedEntriesSucceed(item, 0, []);
        assert SanitizedObject(item).Success? <==> ok;
      }
      SanitizedItemsSucceed(owner, j + 1);
      assert (forall i :: j <= i < |items| ==> (items[i].Obj? || items[i].Arr?) ==> EntriesAcceptable(items[i]))
        <==> ok && (forall i :: j + 1 <= i < |items| ==> (items[i].Obj? || items[i].Arr?) ==> EntriesAcceptable(items[i]));
    }
  }

  lemma {:induction false} SanitizedEntriesSucceed(owner: Value, i: nat, acc: seq<JsValue.Field>)
    requires i <= |Entries(owner)|
    ensures SanitizedEntries(owner, i, acc).Success? <==> AcceptableFrom(owner, i)
    decreases owner, 0, |Entries(owner)| - i
  {
    var es := Entries(owner);
    if i < |es| {
      var e := es[i];
      var x := SanitizedValue(e.key, e.value);
      assert x.Success? <==> Acceptable(e.value) by {
        SanitizedValueSucceeds(e.key, e.value);
      }
      assert AcceptableFrom(owner, i) <==> Acceptable(e.value) && AcceptableFrom(owner, i + 1) by {
        AcceptableFromStep(owner, i);
      }
      if x.Success? {
        var next := JsValue.Assign(acc, e.key, x.value);
        EntriesStep(owner, i, acc);
        SanitizedEntriesSucceed(owner, i + 1, next);
      } else {
        assert SanitizedEntries(owner, i, acc) == Failure(x.error);
      }
    }
  }

  /** `sanitizeParams` succeeds exactly on the acceptable objects. */
  lemma SanitizeParamsSucceeds(owner: Value)
    requires owner.Obj?
    ensures SanitizedObject(owner).Success? <==> Acceptable(owner)
  {
    SanitizedEntriesSucceed(owner, 0, []);
  }

  /** The sanitised object has the input's keys, but for `__proto__`, which the setter takes. */
  lemma {:induction false} SanitizedEntriesKeys(owner: Value, i: nat, acc: seq<JsValue.Field>)
    requires i <= |Entries(owner)|
    requires forall k :: JsValue.HasKey(acc, k) <==> k != JsValue.ProtoKey && JsValue.HasKey(Entries(owner)[..i], k)
    ensures var r := SanitizedEntries(owner, i, acc);
      r.Success? ==> forall k :: JsValue.HasKey(r.value, k) <==> k != JsValue.ProtoKey && JsValue.HasKey(Entries(owner), k)
    decreases |Entries(owner)| - i
  {
    var es := Entries(owner);
    if i == |es| {
      assert es[..i] == es;
    } else {
      var e := es[i];
      var x := SanitizedValue(e.key, e.value);
      if x.Success? {
        var next := JsValue.Assign(acc, e.key, x.value);
        assert forall k :: JsValue.HasKey(next, k) <==> k != JsValue.ProtoKey && JsValue.HasKey(es[..i + 1], k) by {
          JsValue.AssignFacts(acc, e.key, x.value);
          JsValue.HasKeyPrefixStep(es, i);
        }
        EntriesStep(owner, i, acc);
        SanitizedEntriesKeys(owner, i + 1, next);
      }
    }
  }

  /** `sanitizeParams` keeps the own keys of its input except `__proto__`. */
  lemma SanitizeParamsKeys(owner: Value)
    ensures var r := SanitizedObject(owner);
      r.Success? ==> forall k :: JsValue.HasKey(r.value.fields, k) <==> k != JsValue.ProtoKey && JsValue.HasKey(Entries(owner), k)
  {
    assert Entries(owner)[..0] == [];
    assert forall k :: !JsValue.HasKey([], k);
    SanitizedEntriesKeys(owner, 0, []);
    var fields := SanitizedEntries(owner, 0, []);
    assert SanitizedObject(owner).Success? ==> fields.Success? && SanitizedObject(owner).value.fields == fields.value;
  }

  /** With distinct keys, as an object has them, each key but `__proto__` carries its own sanitised value. */
  lemma {:induction false} SanitizedEntriesValues(owner: Value, i: nat, acc: seq<JsValue.Field>)
    requires i <= |Entries(owner)|
    requires forall a, b :: 0 <= a < b < |Entries(owner)| ==> Entries(owner)[a].key != Entries(owner)[b].key
    requires forall j :: 0 <= j < i ==>
      (SanitizedValue(Entries(owner)[j].key, Entries(owner)[j].value).Success?
       && (Entries(owner)[j].key != JsValue.ProtoKey ==>
             JsValue.Lookup(acc, Entries(owner)[j].key) == SanitizedValue(Entries(owner)[j].key, Entries(owner)[j].value).value))
    ensures var r := SanitizedEntries(owner, i, acc);
      r.Success? ==> forall j :: 0 <= j < |Entries(owner)| ==>
        (SanitizedValue(Entries(owner)[j].key, Entries(owner)[j].value).Success?
         && (Entries(owner)[j].key != JsValue.ProtoKey ==>
               JsValue.Lookup(r.value, Entries(owner)[j].key) == SanitizedValue(Entries(owner)[j].key, Entries(owner)[j].value).value))
    decreases |Entries(owner)| - i
  {
    var es := Entries(owner);
    if i < |es| {
      var e := es[i];
      var x := SanitizedValue(e.key, e.value);
      if x.Success? {
        var next := JsValue.Assign(acc, e.key, x.value);
        JsValue.AssignRead(acc, e.key, x.value);
        forall j | 0 <= j < i + 1 && es[j].key != JsValue.ProtoKey
          ensures JsValue.Lookup(next, es[j].key) == SanitizedValue(es[j].key, es[j].value).value
        {
          if j < i {
            assert es[j].key != e.key;
            JsValue.AssignOther(acc, e.key, x.value, es[j].key);
          }
        }
        EntriesStep(owner, i, acc);
        SanitizedEntriesValues(owner, i + 1, next);
      }
    }
  }

  /** A string under `__proto__`, as `JSON.parse` can give, is taken by the setter: the result is `{}`. */
  lemma ProtoEntryDropped(s: string)
    ensures SanitizedObject(JsValue.Obj([JsValue.Field(JsValue.ProtoKey, JsValue.Str(s))])) == Success(JsValue.Obj([]))
  {
    var owner := JsValue.Obj([JsValue.Field(JsValue.ProtoKey, JsValue.Str(s))]);
    assert Entries(owner)[0] == JsValue.Field(JsValue.ProtoKey, JsValue.Str(s));
    assert SanitizedEntries(owner, 0, []) == SanitizedEntries(owner, 1, []);
  }

  /** A non-finite number inside an array is not examined: such parameters pass. */
  lemma ArrayElementsUnchecked()
    ensures SanitizedObject(JsValue.Obj([JsValue.Field("ids", JsValue.Arr([JsValue.Number(JsValue.NaN)]))])).Success?
  {
    var v := JsValue.Obj([JsValue.Field("ids", JsValue.Arr([JsValue.Number(JsValue.NaN)]))]);
    SanitizeParamsSucceeds(v);
    assert Entries(v)[0].value == JsValue.Arr([JsValue.Number(JsValue.NaN)]);
  }

  // ---------------------------------------------------------------- common operations

  const Roles: seq<string> := ["user", "assistant", "system"]

  /** The white space around the multi-line templates. */
  const Lead: string := "\n      "
  const Trail: string := "\n    "

  // The long template texts are written as concatenations of short literals: the
  // verifier checks `'$' !in` of each short literal on its own, where one long literal
  // is too costly to check character by character.
  const FindColumnsText: string := " id, guid," + " created_at," + " updated_at" + " FROM" + " conversations" + " WHERE guid = "
  const FindConversationText: string := "SELECT" + FindColumnsText
  const UserFilterText: string := " AND user_id = "

  const InsertMessageColumns: string := " INTO messages" + " (id," + " conversation_id," + " role," + " content," + " created_at)" + "\n      VALUES" + " (gen_random_uuid(), "
  const InsertMessageEnd: string := ", NOW())\n      RETURNING *"
  /** The `INSERT` template of `insertMessage`, cut at its placeholders `$1`, `$2`, `$3`. */
  const InsertMessagePieces: seq<string> := [Lead + "INSERT" + InsertMessageColumns, ", ", ", ", InsertMessageEnd + Trail]

  const CreateConversationColumns: string := " INTO conversations" + " (id," + " guid," + " created_at," + " user_id)" + "\n      VALUES" + " (gen_random_uuid(), "
  const CreateConversationMiddle: string := ", NOW(), "
  const CreateConversationEnd: string := ")\n      RETURNING *"
  /** The `INSERT` template of `createConversation`, cut at its placeholders `$1`, `$2`. */
  const CreateConversationPieces: seq<string> := [Lead + "INSERT" + CreateConversationColumns, CreateConversationMiddle, CreateConversationEnd + Trail]

  /** `findConversation`: the user filter is added for a non-empty user id. */
  function FindConversation(guid: string, userId: Option<string>): Result<DbRequest, string>
  {
    if !Validation.IsValidUuid(guid) then Failure("Invalid conversation GUID")
    else if Text.TruthyString(userId) then
      QueryRead(Interleave([FindConversationText, UserFilterText, ""], 2, 1),
                [JsValue.Str(guid), JsValue.Str(userId.value)], userId)
    else QueryRead(Interleave([FindConversationText, ""], 1, 1), [JsValue.Str(guid)], userId)
  }

  /** `insertMessage`. */
  function InsertMessage(conversationId: string, role: string, content: string, userId: Option<string>): Result<DbRequest, string>
  {
    if !Validation.IsValidUuid(conversationId) then Failure("Invalid conversation ID")
    else if role !in Roles then Failure("Invalid message role")
    else QueryWrite(Interleave(InsertMessagePieces, 3, 1),
                    [JsValue.Str(conversationId), JsValue.Str(role), JsValue.Str(content)], userId)
  }

  /** `createConversation`: a missing or empty user id is stored as `null`. */
  function CreateConversation(guid: string, userId: Option<string>): Result<DbRequest, string>
  {
    if !Validation.IsValidUuid(guid) then Failure("Invalid conversation GUID")
    else QueryWrite(Interleave(CreateConversationPieces, 2, 1),
                    [JsValue.Str(guid), if Text.TruthyString(userId) then JsValue.Str(userId.value) else JsValue.Null], userId)
  }

  /** Every parameter of the request is bound to a placeholder by the driver call. */
  predicate AllParamsBound(req: DbRequest)
  {
    PlaceholderSplit(req.sql, req.params, 1).1 == req.params
  }

  lemma SmallPlaceholders()
    ensures Placeholder(1) == "$1" && Placeholder(2) == "$2" && Placeholder(3) == "$3"
  {
    assert Text.NatToString(1) == "1" && Text.NatToString(2) == "2" && Text.NatToString(3) == "3";
  }

  /** `Interleave` of two, three and four strings with a placeholder between each pair. */
  lemma InterleaveSmall(a: string, b: string, c: string, d: string)
    ensures Interleave([a, b], 1, 1) == a + Placeholder(1) + b
    ensures Interleave([a, b, c], 2, 1) == a + Placeholder(1) + b + Placeholder(2) + c
    ensures Interleave([a, b, c, d], 3, 1) == a + Placeholder(1) + b + Placeholder(2) + c + Placeholder(3) + d
  {
    var ph := Placeholder;
    InterleaveOne(d, 4, ph);
    InterleaveOne(c, 3, ph);
    InterleaveOne(b, 2, ph);
    InterleaveCons([c, d], 1, 3, ph);
    assert [c, d][1..] == [d];
    InterleaveCons([b, c], 1, 2, ph);
    assert [b, c][1..] == [c];
    InterleaveCons([b, c, d], 2, 2, ph);
    assert [b, c, d][1..] == [c, d];
    InterleaveCons([a, b], 1, 1, ph);
    assert [a, b][1..] == [b];
    InterleaveCons([a, b, c], 2, 1, ph);
    assert [a, b, c][1..] == [b, c];
    InterleaveCons([a, b, c, d], 3, 1, ph);
    assert [a, b, c, d][1..] == [b, c, d];
  }

  lemma LowerKeywords()
    ensures Text.Lower("SELECT") == "select" && Text.Lower("INSERT") == "insert"
  {
  }

  /** A statement whose first word is `SELECT`, after white space, passes the read guard. */
  lemma ReadGuardAccepts(pre: string, rest: string, post: string)
    requires forall i :: 0 <= i < |pre| ==> Text.IsSpace(pre[i])
    requires forall i :: 0 <= i < |post| ==> Text.IsSpace(post[i])
    requires |rest| > 0 && !Text.IsSpace(rest[|rest| - 1])
    ensures IsReadStatement(pre + ("SELECT" + rest) + post)
  {
    NormalizedStartsWith(pre, "SELECT", rest, post);
    LowerKeywords();
  }

  /** A statement whose first word is `INSERT`, after white space, passes the write guard. */
  lemma WriteGuardAccepts(pre: string, rest: string, post: string)
    requires forall i :: 0 <= i < |pre| ==> Text.IsSpace(pre[i])
    requires forall i :: 0 <= i < |post| ==> Text.IsSpace(post[i])
    requires |rest| > 0 && !Text.IsSpace(rest[|rest| - 1])
    ensures IsWriteStatement(pre + ("INSERT" + rest) + post)
  {
    NormalizedStartsWith(pre, "INSERT", rest, post);
    LowerKeywords();
    assert WriteOperations[0] == "insert";
  }

  lemma TemplateSpacing()
    ensures forall i :: 0 <= i < |Lead| ==> Text.IsSpace(Lead[i])
    ensures forall i :: 0 <= i < |Trail| ==> Text.IsSpace(Trail[i])
    ensures InsertMessageEnd[|InsertMessageEnd| - 1] == '*'
    ensures CreateConversationEnd[|CreateConversationEnd| - 1] == '*'
  {
  }

  // The `$`-freedom of each literal, one literal at a time.
  lemma FindTextsDollarFree()
    ensures '$' !in FindConversationText && '$' !in UserFilterText
  {
  }

  lemma InsertMessageColumnsDollarFree()
    ensures '$' !in InsertMessageColumns
  {
  }

  lemma CreateConversationColumnsDollarFree()
    ensures '$' !in CreateConversationColumns
  {
  }

  lemma TemplateEndsDollarFree()
    ensures '$' !in Lead && '$' !in Trail && '$' !in "INSERT" && '$' !in ", "
    ensures '$' !in InsertMessageEnd && '$' !in CreateConversationMiddle && '$' !in CreateConversationEnd
  {
  }

  lemma InsertMessageDollarFree()
    ensures forall i :: 0 <= i < |InsertMessagePieces| ==> '$' !in InsertMessagePieces[i]
  {
    InsertMessageColumnsDollarFree();
    TemplateEndsDollarFree();
    var ps := InsertMessagePieces;
    forall i | 0 <= i < |ps| ensures '$' !in ps[i] {
      if i == 0 {
        assert ps[0] == Lead + "INSERT" + InsertMessageColumns;
      } else if i == 3 {
        assert ps[3] == InsertMessageEnd + Trail;
      } else {
        assert ps[i] == ", ";
      }
    }
  }

  lemma CreateConversationDollarFree()
    ensures forall i :: 0 <= i < |CreateConversationPieces| ==> '$' !in CreateConversationPieces[i]
  {
    CreateConversationColumnsDollarFree();
    TemplateEndsDollarFree();
    var cs := CreateConversationPieces;
    forall i | 0 <= i < |cs| ensures '$' !in cs[i] {
      if i == 0 {
        assert cs[0] == Lead + "INSERT" + CreateConversationColumns;
      } else if i == 1 {
        assert cs[1] == CreateConversationMiddle;
      } else {
        assert cs[2] == CreateConversationEnd + Trail;
      }
    }
  }

  /** The lookup text with the user filter passes the read guard. */
  lemma FilteredFindIsRead()
    ensures IsReadStatement(Interleave([FindConversationText, UserFilterText, ""], 2, 1))
  {
    InterleaveSmall(FindConversationText, UserFilterText, "", "");
    var two := FindColumnsText + Placeholder(1) + UserFilterText + Placeholder(2);
    var q := Interleave([FindConversationText, UserFilterText, ""], 2, 1);
    assert q == "SELECT" + two;
    assert q == "" + ("SELECT" + two) + "";
    ReadGuardAccepts("", two, "");
  }

  /** The lookup text without the user filter passes the read guard. */
  lemma PlainFindIsRead()
    ensures IsReadStatement(Interleave([FindConversationText, ""], 1, 1))
  {
    InterleaveSmall(FindConversationText, "", "", "");
    var one := FindColumnsText + Placeholder(1);
    var q := Interleave([FindConversationText, ""], 1, 1);
    assert q == "SELECT" + one;
    assert q == "" + ("SELECT" + one) + "";
    ReadGuardAccepts("", one, "");
  }

  /** An `INSERT` template of four pieces, between white space, passes the write guard. */
  lemma FourPieceWrite(lead: string, cols: string, a: string, b: string, end: string, trail: string)
    requires forall i :: 0 <= i < |lead| ==> Text.IsSpace(lead[i])
    requires forall i :: 0 <= i < |trail| ==> Text.IsSpace(trail[i])
    requires |end| > 0 && !Text.IsSpace(end[|end| - 1])
    ensures IsWriteStatement(Interleave([lead + "INSERT" + cols, a, b, end + trail], 3, 1))
  {
    InterleaveSmall(lead + "INSERT" + cols, a, b, end + trail);
    var body := cols + Placeholder(1) + a + Placeholder(2) + b + Placeholder(3) + end;
    assert body[|body| - 1] == end[|end| - 1];
    assert Interleave([lead + "INSERT" + cols, a, b, end + trail], 3, 1) == lead + ("INSERT" + body) + trail;
    WriteGuardAccepts(lead, body, trail);
  }

  /** An `INSERT` template of three pieces, between white space, passes the write guard. */
  lemma ThreePieceWrite(lead: string, cols: string, a: string, end: string, trail: string)
    requires forall i :: 0 <= i < |lead| ==> Text.IsSpace(lead[i])
    requires forall i :: 0 <= i < |trail| ==> Text.IsSpace(trail[i])
    requires |end| > 0 && !Text.IsSpace(end[|end| - 1])
    ensures IsWriteStatement(Interleave([lead + "INSERT" + cols, a, end + trail], 2, 1))
  {
    InterleaveSmall(lead + "INSERT" + cols, a, end + trail, "");
    var body := cols + Placeholder(1) + a + Placeholder(2) + end;
    assert body[|body| - 1] == end[|end| - 1];
    assert Interleave([lead + "INSERT" + cols, a, end + trail], 2, 1) == lead + ("INSERT" + body) + trail;
    WriteGuardAccepts(lead, body, trail);
  }

  /** The `insertMessage` text passes the write guard. */
  lemma InsertMessageIsWrite()
    ensures IsWriteStatement(Interleave(InsertMessagePieces, 3, 1))
  {
    TemplateSpacing();
    FourPieceWrite(Lead, InsertMessageColumns, ", ", ", ", InsertMessageEnd, Trail);
  }

  /** The `createConversation` text passes the write guard. */
  lemma CreateConversationIsWrite()
    ensures IsWriteStatement(Interleave(CreateConversationPieces, 2, 1))
  {
    TemplateSpacing();
    ThreePieceWrite(Lead, CreateConversationColumns, CreateConversationMiddle, CreateConversationEnd, Trail);
  }

  /** The filtered lookup is accepted as a read and binds both of its parameters. */
  lemma FilteredFindRequest(guid: string, user: string, userId: Option<string>)
    ensures var sql := Interleave([FindConversationText, UserFilterText, ""], 2, 1);
      var params := [JsValue.Str(guid), JsValue.Str(user)];
      QueryRead(sql, params, userId) == Success(DbRequest(sql, params, userId, "read"))
      && AllParamsBound(DbRequest(sql, params, userId, "read"))
  {
    FindTextsDollarFree();
    FilteredFindIsRead();
    var strings := [FindConversationText, UserFilterText, ""];
    assert forall i :: 0 <= i < |strings| ==> '$' !in strings[i];
    SqlSplitRoundTrip(strings, [JsValue.Str(guid), JsValue.Str(user)]);
  }

  /** The unfiltered lookup is accepted as a read and binds its parameter. */
  lemma PlainFindRequest(guid: string, userId: Option<string>)
    ensures var sql := Interleave([FindConversationText, ""], 1, 1);
      var params := [JsValue.Str(guid)];
      QueryRead(sql, params, userId) == Success(DbRequest(sql, params, userId, "read"))
      && AllParamsBound(DbRequest(sql, params, userId, "read"))
  {
    FindTextsDollarFree();
    PlainFindIsRead();
    var strings := [FindConversationText, ""];
    assert forall i :: 0 <= i < |strings| ==> '$' !in strings[i];
    SqlSplitRoundTrip(strings, [JsValue.Str(guid)]);
  }

  /** The conversation lookup runs only for a UUID, as a read, with its parameters bound. */
  lemma FindConversationChecks(guid: string, userId: Option<string>)
    ensures var r := FindConversation(guid, userId);
      (r.Success? <==> Validation.IsValidUuid(guid))
      && (r.Failure? ==> r.error == "Invalid conversation GUID")
      && (r.Success? ==> r.value.action == "read" && r.value.params[0] == JsValue.Str(guid)
                         && |r.value.params| == (if Text.TruthyString(userId) then 2 else 1)
                         && AllParamsBound(r.value))
  {
    if Validation.IsValidUuid(guid) {
      if Text.TruthyString(userId) {
        FilteredFindRequest(guid, userId.value, userId);
      } else {
        PlainFindRequest(guid, userId);
      }
    }
  }

  /** A message is inserted only for a UUID and a known role, as a write, with all three parameters bound. */
  lemma InsertMessageChecks(conversationId: string, role: string, content: string, userId: Option<string>)
    ensures var r := InsertMessage(conversationId, role, content, userId);
      (r.Success? <==> Validation.IsValidUuid(conversationId) && role in Roles)
      && (!Validation.IsValidUuid(conversationId) ==> r == Failure("Invalid conversation ID"))
      && (Validation.IsValidUuid(conversationId) && role !in Roles ==> r == Failure("Invalid message role"))
      && (r.Success? ==> r.value.action == "write" && |r.value.params| == 3 && AllParamsBound(r.value))
  {
    if Validation.IsValidUuid(conversationId) && role in Roles {
      InsertMessageIsWrite();
      InsertMessageDollarFree();
      SqlSplitRoundTrip(InsertMessagePieces, [JsValue.Str(conversationId), JsValue.Str(role), JsValue.Str(content)]);
    }
  }

  /** A conversation is created only for a UUID, as a write, with both parameters bound. */
  lemma CreateConversationChecks(guid: string, userId: Option<string>)
    ensures var r := CreateConversation(guid, userId);
      (r.Success? <==> Validation.IsValidUuid(guid))
      && (r.Failure? ==> r.error == "Invalid conversation GUID")
      && (r.Success? ==> r.value.action == "write" && |r.value.params| == 2 && AllParamsBound(r.value)
                         && (r.value.params[1].Null? <==> !Text.TruthyString(userId)))
  {
    if Validation.IsValidUuid(guid) {
      CreateConversationIsWrite();
      CreateConversationDollarFree();
      var params := [JsValue.Str(guid), if Text.TruthyString(userId) then JsValue.Str(userId.value) else JsValue.Null];
      SqlSplitRoundTrip(CreateConversationPieces, params);
    }
  }
}
