/**
 * The SQL handling of the IPL example agent (scripts/agents/ipl/main.py):
 * the clean-up applied to every query a model writes, the SELECT-only check
 * and row cap of its chart tool, and the view name given to each CSV file.
 */
module IplAgent {
  import opened Wrappers
  import opened Text
  import opened Dashboarding

  // ---------------------------------------------------------------------
  // _normalize_sql_query
  // ---------------------------------------------------------------------

  /** A leading code fence: all backticks at both ends go, then one leading "sql\n" in any case. */
  function StripFence(q: string): (r: string)
    ensures !StartsWith(q, "```") ==> r == q
    ensures |r| <= |q|
  {
    if StartsWith(q, "```") then
      var t := Strip(q, Only('`'));
      if StartsWith(AsciiLower(t), "sql\n") then t[4..] else t
    else q
  }

  predicate QuotedBy(q: string, quote: char) {
    |q| >= 1 && q[0] == quote && q[|q| - 1] == quote
  }

  /** Outer quotes: `q[1:-1]` when `q` starts and ends with the same quote character. */
  function StripQuotes(q: string): (r: string)
    ensures r != q ==> QuotedBy(q, '"') || QuotedBy(q, '\'')
    ensures r != q && |q| >= 2 ==> q == [q[0]] + r + [q[0]]
  {
    if QuotedBy(q, '"') || QuotedBy(q, '\'') then
      if |q| >= 2 then q[1..|q| - 1] else []
    else q
  }

  /** The escape sequences backslash-n, backslash-t and backslash-r become the characters they name. */
  function Unescape(q: string): (r: string)
    ensures NoPair(r, '\\', 'n') && NoPair(r, '\\', 't') && NoPair(r, '\\', 'r')
    ensures |r| <= |q|
  {
    var a := Replace(q, "\\n", "\n");
    var b := Replace(a, "\\t", "\t");
    ReplaceNoLonger(q, "\\n", "\n");
    ReplaceNoLonger(a, "\\t", "\t");
    ReplaceNoLonger(b, "\\r", "\r");
    EscapesReplaced(q);
    Replace(b, "\\r", "\r")
  }

  /** No `x` in `s` is directly followed by `y`. */
  predicate NoPair(s: string, x: char, y: char) {
    forall i :: 0 <= i < |s| - 1 ==> !(s[i] == x && s[i + 1] == y)
  }

  /**
   * After the three passes no escape is left: each pass removes its own
   * pair, and the control character it writes cannot start or end an
   * escape, so a later pass never re-creates a pair an earlier one removed.
   */
  lemma EscapesReplaced(q: string)
    ensures var a := Replace(q, "\\n", "\n");
      var b := Replace(a, "\\t", "\t");
      var r := Replace(b, "\\r", "\r");
      NoPair(r, '\\', 'n') && NoPair(r, '\\', 't') && NoPair(r, '\\', 'r')
  {
    var a := Replace(q, "\\n", "\n");
    var b := Replace(a, "\\t", "\t");
    var r := Replace(b, "\\r", "\r");
    forall i | 0 <= i < |a| - 1 ensures !(a[i] == '\\' && a[i + 1] == 'n') {
      ReplaceLeavesNoPair(q, '\\', 'n', '\n', i);
    }
    ReplaceKeepsNoPair(a, '\\', 't', '\t', '\\', 'n');
    ReplaceKeepsNoPair(b, '\\', 'r', '\r', '\\', 'n');
    forall i | 0 <= i < |b| - 1 ensures !(b[i] == '\\' && b[i + 1] == 't') {
      ReplaceLeavesNoPair(a, '\\', 't', '\t', i);
    }
    ReplaceKeepsNoPair(b, '\\', 'r', '\r', '\\', 't');
    forall i | 0 <= i < |r| - 1 ensures !(r[i] == '\\' && r[i + 1] == 'r') {
      ReplaceLeavesNoPair(b, '\\', 'r', '\r', i);
    }
  }

  /**
   * Replacing `[a, b]` by a character `c` that is neither `x` nor `y` adds
   * no `x` followed by `y`; the result starts with `c` or with `s[0]`.
   */
  lemma {:induction false} ReplaceKeepsNoPair(s: string, a: char, b: char, c: char, x: char, y: char)
    requires c != x && c != y && NoPair(s, x, y)
    ensures var r := Replace(s, [a, b], [c]);
      NoPair(r, x, y) && (r != [] ==> s != [] && (r[0] == c || r[0] == s[0]))
    decreases |s|
  {
    if s != [] {
      var r := Replace(s, [a, b], [c]);
      var n := if StartsWith(s, [a, b]) then 2 else 1;
      var t := s[n..];
      assert NoPair(t, x, y) by {
        forall i | 0 <= i < |t| - 1 ensures !(t[i] == x && t[i + 1] == y) {
          assert t[i] == s[i + n] && t[i + 1] == s[i + n + 1];
        }
      }
      ReplaceKeepsNoPair(t, a, b, c, x, y);
      var rest := Replace(t, [a, b], [c]);
      var head := if n == 2 then c else s[0];
      assert r == [head] + rest;
      forall i | 0 <= i < |r| - 1 ensures !(r[i] == x && r[i + 1] == y) {
        if i > 0 {
          assert r[i] == rest[i - 1] && r[i + 1] == rest[i];
        } else if n == 1 && rest[0] != c {
          assert rest[0] == t[0] == s[1];
        }
      }
    }
  }

  /** A pass whose escape letter is not `c` leaves a backslash followed by `c` in place. */
  lemma OtherEscapeKept(c: char, d: char, ctl: char, s: string)
    requires c != d && c != '\\' && '\\' !in s
    ensures Replace(['\\', c] + s, ['\\', d], [ctl]) == ['\\', c] + s
  {
    var u := ['\\', c] + s;
    assert !StartsWith(u, ['\\', d]);
    assert u[1..] == [c] + s;
    ReplaceAbsent([c] + s, ['\\', d], [ctl]);
  }

  /** Between text without backslashes, the tab escape becomes a tab. */
  lemma TabEscapeReplaced(p: string, s: string)
    requires '\\' !in p && '\\' !in s
    ensures Unescape(p + "\\t" + s) == p + "\t" + s
  {
    var u := "\\t" + s;
    assert p + "\\t" + s == p + u;
    UnescapeKeepsPrefix(p, u);
    OtherEscapeKept('t', 'n', '\n', s);
    assert StartsWith(u, "\\t") && u[2..] == s;
    ReplaceAbsent(s, "\\t", "\t");
    ReplaceAbsent("\t" + s, "\\r", "\r");
    assert p + ("\t" + s) == p + "\t" + s;
  }

  /** Between text without backslashes, the carriage-return escape becomes a carriage return. */
  lemma ReturnEscapeReplaced(p: string, s: string)
    requires '\\' !in p && '\\' !in s
    ensures Unescape(p + "\\r" + s) == p + "\r" + s
  {
    var u := "\\r" + s;
    assert p + "\\r" + s == p + u;
    UnescapeKeepsPrefix(p, u);
    OtherEscapeKept('r', 'n', '\n', s);
    OtherEscapeKept('r', 't', '\t', s);
    assert StartsWith(u, "\\r") && u[2..] == s;
    ReplaceAbsent(s, "\\r", "\r");
    assert p + ("\r" + s) == p + "\r" + s;
  }


  /** `_normalize_sql_query(sql_query)`, with `None` as `Option.None`. */
  function NormalizeSqlQuery(sqlQuery: Option<string>): (r: string)
    ensures r == [] || !IsPySpace(r[0])
    ensures r == [] || r[|r| - 1] != ';'
  {
    var q := Strip(if sqlQuery.Some? then sqlQuery.value else "", Whitespace);
    var unescaped := Strip(Unescape(StripQuotes(StripFence(q))), Whitespace);
    RStrip(unescaped, Only(';'))
  }

  lemma EmptyNormalisesToEmpty()
    ensures NormalizeSqlQuery(None) == ""
    ensures NormalizeSqlQuery(Some("")) == ""
  {
    assert Unescape("") == "";
  }

  /** `lstrip` removes a run of strippable characters up to the first one it keeps. */
  lemma {:induction false} LStripDrops(pre: string, rest: string, k: Strippable)
    requires forall i :: 0 <= i < |pre| ==> Strips(k, pre[i])
    requires rest == [] || !Strips(k, rest[0])
    ensures LStrip(pre + rest, k) == rest
    decreases |pre|
  {
    if pre == [] {
      assert pre + rest == rest;
    } else {
      assert (pre + rest)[1..] == pre[1..] + rest;
      LStripDrops(pre[1..], rest, k);
    }
  }

  /** `rstrip` removes a run of strippable characters back to the last one it keeps. */
  lemma {:induction false} RStripDrops(rest: string, suf: string, k: Strippable)
    requires forall i :: 0 <= i < |suf| ==> Strips(k, suf[i])
    requires rest == [] || !Strips(k, rest[|rest| - 1])
    ensures RStrip(rest + suf, k) == rest
    decreases |suf|
  {
    if suf == [] {
      assert rest + suf == rest;
    } else {
      assert (rest + suf)[..|rest + suf| - 1] == rest + suf[..|suf| - 1];
      RStripDrops(rest, suf[..|suf| - 1], k);
    }
  }

  /**
   * The fence step on a fenced query: the backticks at both ends and the
   * "sql" tag line go, whatever the case of the tag.
   */
  lemma FenceStripped(tag: string, body: string)
    requires AsciiLower(tag) == "sql\n"
    requires body == [] || body[|body| - 1] != '`'
    ensures StripFence("```" + (tag + body) + "```") == body
  {
    TaggedText(tag, body);
    BackticksStripped(tag + body);
    FenceOfStripped(tag + body, body);
  }

  /** A fence without a tag line loses its backticks and nothing else. */
  lemma UntaggedFenceStripped(t: string)
    requires t != [] && t[0] != '`' && t[|t| - 1] != '`'
    requires !StartsWith(AsciiLower(t), "sql\n")
    ensures StripFence("```" + t + "```") == t
  {
    BackticksStripped(t);
    FencedStep(t);
  }

  /** A query fenced by three backticks goes through the fence step's first branch. */
  lemma FencedStep(t: string)
    ensures var q := "```" + t + "```"; var u := Strip(q, Only('`'));
      StripFence(q) == if StartsWith(AsciiLower(u), "sql\n") then u[4..] else u
  {
    var q := "```" + t + "```";
    assert q[..3] == "```";
  }

  lemma FenceOfStripped(t: string, body: string)
    requires Strip("```" + t + "```", Only('`')) == t
    requires StartsWith(AsciiLower(t), "sql\n") && |t| >= 4 && t[4..] == body
    ensures StripFence("```" + t + "```") == body
  {
    FencedStep(t);
  }

  /** A text that starts with a tag line "sql\n" (in any case): its ends are not backticks and the tag is recognised. */
  lemma TaggedText(tag: string, body: string)
    requires AsciiLower(tag) == "sql\n"
    requires body == [] || body[|body| - 1] != '`'
    ensures var t := tag + body;
      && t != [] && t[0] != '`' && t[|t| - 1] != '`'
      && StartsWith(AsciiLower(t), "sql\n") && t[4..] == body
  {
    var t := tag + body;
    assert |tag| == 4;
    assert LowerChar(tag[0]) == 's' && LowerChar(tag[3]) == '\n';
    assert t[0] == tag[0];
    assert t[|t| - 1] == if body == [] then tag[3] else body[|body| - 1];
    assert AsciiLower(t)[..4] == AsciiLower(tag);
  }

  /** `strip("`")` of a text between two runs of three backticks gives the text back. */
  lemma BackticksStripped(t: string)
    requires t != [] && t[0] != '`' && t[|t| - 1] != '`'
    ensures Strip("```" + t + "```", Only('`')) == t
  {
    assert "```" + t + "```" == "```" + (t + "```");
    assert (t + "```")[0] == t[0];
    LStripDrops("```", t + "```", Only('`'));
    RStripDrops(t, "```", Only('`'));
  }

  /** Text with no backslash comes through the unescape step unchanged. */
  lemma UnescapeWithoutBackslash(q: string)
    requires '\\' !in q
    ensures Unescape(q) == q
  {
    assert q + "" == q;
    ReplaceKeepsPrefix(q, "", "\\n", "\n");
    ReplaceKeepsPrefix(q, "", "\\t", "\t");
    ReplaceKeepsPrefix(q, "", "\\r", "\r");
  }

  /** A query wrapped in one kind of quote comes out as what was inside. */
  lemma StripQuotesRoundTrip(c: char, s: string)
    requires c == '"' || c == '\''
    ensures StripQuotes([c] + s + [c]) == s
  {
    var q := [c] + s + [c];
    assert q[1..|q| - 1] == s;
  }

  /** Matching outer quotes are removed; mismatched ones are kept. */
  lemma QuotedQueryExamples()
    ensures StripQuotes("'select 1'") == "select 1"
    ensures StripQuotes("\"select 1'") == "\"select 1'"
    ensures StripQuotes("\"") == ""
  {
  }

  /**
   * Replacing a two-character sequence `[a, b]` by a third character `c`
   * leaves no `a` followed by `b`.
   */
  lemma {:induction false} ReplaceLeavesNoPair(s: string, a: char, b: char, c: char, i: int)
    requires c != a && c != b
    requires 0 <= i && i + 1 < |Replace(s, [a, b], [c])|
    ensures !(Replace(s, [a, b], [c])[i] == a && Replace(s, [a, b], [c])[i + 1] == b)
    decreases |s|
  {
    var r := Replace(s, [a, b], [c]);
    if StartsWith(s, [a, b]) {
      var rest := Replace(s[2..], [a, b], [c]);
      assert r == [c] + rest;
      if i > 0 {
        ReplaceLeavesNoPair(s[2..], a, b, c, i - 1);
      }
    } else {
      var rest := Replace(s[1..], [a, b], [c]);
      assert r == [s[0]] + rest;
      if i > 0 {
        ReplaceLeavesNoPair(s[1..], a, b, c, i - 1);
      }
    }
  }

  /** The first unescape pass leaves no backslash followed by 'n'. */
  lemma NoNewlineEscapeLeft(q: string)
    ensures var r := Replace(q, "\\n", "\n");
      forall i :: 0 <= i < |r| - 1 ==> !(r[i] == '\\' && r[i + 1] == 'n')
  {
    var r := Replace(q, "\\n", "\n");
    forall i | 0 <= i < |r| - 1
      ensures !(r[i] == '\\' && r[i + 1] == 'n')
    {
      ReplaceLeavesNoPair(q, '\\', 'n', '\n', i);
    }
  }

  /** On a query with no raw newline, replacing the escape backslash-n loses nothing: writing it back restores the query. */
  lemma UnescapeNewlineRoundTrip(q: string)
    requires '\n' !in q
    ensures Replace(Replace(q, "\\n", "\n"), "\n", "\\n") == q
  {
    ReplaceRoundTrip(q, '\\', 'n', '\n');
  }

  // ---------------------------------------------------------------------
  // The SELECT-only check and the row cap
  // ---------------------------------------------------------------------

  /** `normalized_query.lower().startswith("select")`. */
  predicate IsSelect(q: string) {
    StartsWith(AsciiLower(q), "select")
  }

  const SelectOnlyError: string :=
    "Error: Only SELECT queries are allowed. Reference registered tables like matches or deliveries."

  /** `_sql_query_runner`'s query: the normalised query inside a row cap of 2000. */
  function LimitedQuery(q: string): (r: string)
    ensures StartsWith(r, "SELECT * FROM (") && EndsWith(r, ") t LIMIT 2000")
    ensures |r| == |NormalizeSqlQuery(Some(q))| + 29 && r[15..|r| - 14] == NormalizeSqlQuery(Some(q))
  {
    var n := NormalizeSqlQuery(Some(q));
    Wrapped("SELECT * FROM (", n, ") t LIMIT 2000");
    "SELECT * FROM (" + n + ") t LIMIT 2000"
  }

  /** `_sql_query_runner` over a database that answers a SQL string. */
  function Runner(db: string -> RunnerOutcome): string -> RunnerOutcome {
    q => db(LimitedQuery(q))
  }

  /** What `render_plotly_chart` returns, and the SQL it sent to the database, if any. */
  datatype ChartReply = ChartReply(outcome: Outcome, executed: Option<string>)

  /** `render_plotly_chart(sql_query, plotly_python, purpose)`. */
  function RenderPlotlyChart(
    sqlQuery: Option<string>, db: string -> RunnerOutcome,
    depsInstalled: bool, snippet: SnippetOutcome, storage: Storage): (r: ChartReply)
    ensures r.executed.Some? ==> r.executed.value == LimitedQuery(NormalizeSqlQuery(sqlQuery))
  {
    Guarded(NormalizeSqlQuery(sqlQuery), db, depsInstalled, snippet, storage)
  }

  /** The body of `render_plotly_chart` after normalisation: the SELECT-only check, then the tool. */
  function Guarded(
    normalized: string, db: string -> RunnerOutcome,
    depsInstalled: bool, snippet: SnippetOutcome, storage: Storage): (r: ChartReply)
    ensures !IsSelect(normalized) ==> r == ChartReply(Message(SelectOnlyError), None)
    ensures r.executed.Some? ==> IsSelect(normalized) && r.executed.value == LimitedQuery(normalized)
  {
    if !IsSelect(normalized) then ChartReply(Message(SelectOnlyError), None)
    else
      var reply := RenderPlotlyChartPy(depsInstalled, Some(Runner(db)), Some(normalized), snippet, storage);
      ChartReply(reply.outcome, if reply.queried.Some? then Some(LimitedQuery(reply.queried.value)) else None)
  }

  /**
   * A query that does not normalise to a SELECT is refused with the fixed
   * message before anything runs; one that does is sent, once the
   * dependencies are present, as exactly
   * `SELECT * FROM (<normalised query>) t LIMIT 2000`.
   */
  lemma {:induction false} GuardAndRowCap(
    sqlQuery: Option<string>, db: string -> RunnerOutcome,
    depsInstalled: bool, snippet: SnippetOutcome, storage: Storage)
    ensures !IsSelect(NormalizeSqlQuery(sqlQuery)) ==>
      RenderPlotlyChart(sqlQuery, db, depsInstalled, snippet, storage) == ChartReply(Message(SelectOnlyError), None)
    ensures IsSelect(NormalizeSqlQuery(sqlQuery)) && depsInstalled ==>
      RenderPlotlyChart(sqlQuery, db, depsInstalled, snippet, storage).executed == Some(LimitedQuery(NormalizeSqlQuery(sqlQuery)))
    ensures IsSelect(NormalizeSqlQuery(sqlQuery)) && !depsInstalled ==>
      RenderPlotlyChart(sqlQuery, db, depsInstalled, snippet, storage) == ChartReply(Message(MissingDependencies), None)
  {
    GuardedCases(NormalizeSqlQuery(sqlQuery), db, depsInstalled, snippet, storage);
  }

  /** The check refuses anything but a SELECT; a SELECT is run, capped, once the dependencies are present. */
  lemma GuardedCases(
    n: string, db: string -> RunnerOutcome,
    depsInstalled: bool, snippet: SnippetOutcome, storage: Storage)
    ensures !IsSelect(n) ==> Guarded(n, db, depsInstalled, snippet, storage) == ChartReply(Message(SelectOnlyError), None)
    ensures IsSelect(n) && depsInstalled ==> Guarded(n, db, depsInstalled, snippet, storage).executed == Some(LimitedQuery(n))
    ensures IsSelect(n) && !depsInstalled ==>
      Guarded(n, db, depsInstalled, snippet, storage) == ChartReply(Message(MissingDependencies), None)
  {
    var reply := RenderPlotlyChartPy(depsInstalled, Some(Runner(db)), Some(n), snippet, storage);
    if IsSelect(n) {
      assert Guarded(n, db, depsInstalled, snippet, storage) ==
        ChartReply(reply.outcome, if reply.queried.Some? then Some(LimitedQuery(reply.queried.value)) else None);
    }
  }

  /** A string whose first characters are none that `k` strips keeps them through `Strip`. */
  lemma {:induction false} StripKeepsPrefix(p: string, s: string, k: Strippable)
    requires forall i :: 0 <= i < |p| ==> !Strips(k, p[i])
    ensures StartsWith(Strip(p + s, k), p)
  {
    if p != [] {
      assert (p + s)[0] == p[0];
      assert LStrip(p + s, k) == p + s;
      RStripKeepsPrefix(p, s, k);
    }
  }

  /** As `StripKeepsPrefix`, for a right strip alone. */
  lemma {:induction false} RStripKeepsPrefix(p: string, s: string, k: Strippable)
    requires forall i :: 0 <= i < |p| ==> !Strips(k, p[i])
    ensures StartsWith(RStrip(p + s, k), p)
    decreases |s|
  {
    if s == [] {
      assert p + s == p;
      if p != [] {
        assert !Strips(k, p[|p| - 1]);
      }
    } else if Strips(k, s[|s| - 1]) {
      assert (p + s)[..|p + s| - 1] == p + s[..|s| - 1];
      RStripKeepsPrefix(p, s[..|s| - 1], k);
    } else {
      assert (p + s)[|p + s| - 1] == s[|s| - 1];
      assert (p + s)[..|p|] == p;
    }
  }

  /** The six characters that spell "select" in some mix of cases. */
  predicate SelectSpelling(p: string) {
    |p| == 6 && AsciiLower(p) == "select"
  }

  lemma SelectSpellingIsPlain(p: string)
    requires SelectSpelling(p)
    ensures forall i :: 0 <= i < 6 ==> !IsPySpace(p[i]) && p[i] != ';' && p[i] != '\\' && p[i] != '`' && p[i] != '"' && p[i] != '\''
  {
    forall i | 0 <= i < 6
      ensures !IsPySpace(p[i]) && p[i] != ';' && p[i] != '\\' && p[i] != '`' && p[i] != '"' && p[i] != '\''
    {
      assert LowerChar(p[i]) == "select"[i];
    }
  }

  /**
   * Every step of the clean-up keeps a leading "select" (in any case), so
   * the runner's second normalisation of an accepted query still yields a
   * SELECT: the capped query always wraps one.
   */
  lemma {:induction false} NormalizeKeepsSelect(q: string)
    requires IsSelect(q)
    ensures IsSelect(NormalizeSqlQuery(Some(q)))
  {
    FrontKeepsSelect(q);
    var q1 := Strip(q, Whitespace);
    CleanUpKeepsSelect(q1);
    assert NormalizeSqlQuery(Some(q)) == RStrip(Strip(Unescape(q1), Whitespace), Only(';'));
  }

  /** The first strip, the fence and the quote steps keep a leading "select". */
  lemma FrontKeepsSelect(q: string)
    requires IsSelect(q)
    ensures var q1 := Strip(q, Whitespace);
      |q1| >= 6 && SelectSpelling(q1[..6]) && StripQuotes(StripFence(q1)) == q1
  {
    var p := q[..6];
    assert AsciiLower(q)[..6] == AsciiLower(p);
    assert SelectSpelling(p);
    SelectSpellingIsPlain(p);
    assert q == p + q[6..];
    StripKeepsPrefix(p, q[6..], Whitespace);
    var q1 := Strip(q, Whitespace);
    assert q1[..6] == p;
    assert !StartsWith(q1, "```") by { assert q1[0] == p[0]; }
    assert StripFence(q1) == q1;
    assert StripQuotes(q1) == q1 by { assert q1[0] == p[0]; }
  }

  /** Unescaping, stripping and dropping trailing ';' keep a leading "select". */
  lemma CleanUpKeepsSelect(q: string)
    requires |q| >= 6 && SelectSpelling(q[..6])
    ensures IsSelect(RStrip(Strip(Unescape(q), Whitespace), Only(';')))
  {
    CleanUpKeepsPrefix(q);
    SelectPrefixIsSelect(RStrip(Strip(Unescape(q), Whitespace), Only(';')));
  }

  /** The clean-up passes leave a leading "select" (any case) in place. */
  lemma CleanUpKeepsPrefix(q: string)
    requires |q| >= 6 && SelectSpelling(q[..6])
    ensures var n := RStrip(Strip(Unescape(q), Whitespace), Only(';'));
      |n| >= 6 && n[..6] == q[..6]
  {
    var p, rest := q[..6], q[6..];
    assert q == p + rest;
    SelectSpellingIsPlain(p);
    var u := Unescape(rest);
    assert Unescape(q) == p + u by { UnescapeKeepsPrefix(p, rest); }
    StripKeepsPrefix(p, u, Whitespace);
    var s := Strip(p + u, Whitespace);
    assert s == p + s[6..];
    RStripKeepsPrefix(p, s[6..], Only(';'));
  }

  lemma SelectPrefixIsSelect(n: string)
    requires |n| >= 6 && SelectSpelling(n[..6])
    ensures IsSelect(n)
  {
    assert AsciiLower(n)[..6] == AsciiLower(n[..6]);
  }

  /** The unescape passes leave a prefix without a backslash in place. */
  lemma UnescapeKeepsPrefix(p: string, s: string)
    requires '\\' !in p
    ensures Unescape(p + s) == p + Unescape(s)
  {
    ReplaceKeepsPrefix(p, s, "\\n", "\n");
    var a := Replace(s, "\\n", "\n");
    ReplaceKeepsPrefix(p, a, "\\t", "\t");
    var b := Replace(a, "\\t", "\t");
    ReplaceKeepsPrefix(p, b, "\\r", "\r");
  }

  /** An accepted query reaches the database as a row-capped SELECT. */
  lemma AcceptedQueryIsCappedSelect(sqlQuery: Option<string>, db: string -> RunnerOutcome, snippet: SnippetOutcome, storage: Storage)
    requires IsSelect(NormalizeSqlQuery(sqlQuery))
    ensures var r := RenderPlotlyChart(sqlQuery, db, true, snippet, storage);
      exists inner :: IsSelect(inner) && r.executed == Some("SELECT * FROM (" + inner + ") t LIMIT 2000")
  {
    var n := NormalizeSqlQuery(sqlQuery);
    NormalizeKeepsSelect(n);
    GuardAndRowCap(sqlQuery, db, true, snippet, storage);
    var inner := NormalizeSqlQuery(Some(n));
    assert IsSelect(inner);
  }

  // ---------------------------------------------------------------------
  // View names
  // ---------------------------------------------------------------------

  /** `s.rfind(c)`: the last index of `c`, or -1. */
  function RFind(s: string, c: char): (r: int)
    ensures -1 <= r < |s|
    ensures r >= 0 ==> s[r] == c
    ensures forall i :: r < i < |s| ==> s[i] != c
    decreases |s|
  {
    if s == [] then -1
    else if s[|s| - 1] == c then |s| - 1
    else RFind(s[..|s| - 1], c)
  }

  /** `PurePath(name).stem` for a file name: the name without its last suffix. */
  function Stem(name: string): (r: string)
    ensures |r| <= |name| && r == name[..|r|]
    ensures r != name ==> 0 < |r| < |name| - 1 && name[|r|] == '.' && forall m :: |r| < m < |name| ==> name[m] != '.'
    ensures 0 < RFind(name, '.') < |name| - 1 ==> r != name
  {
    var i := RFind(name, '.');
    if 0 < i < |name| - 1 then name[..i] else name
  }

  /** `csv_file.stem.replace("-", "_")`. */
  function ViewAlias(fileName: string): (r: string)
    ensures '-' !in r
  {
    ReplaceRemovesChar(Stem(fileName), '-', "_");
    Replace(Stem(fileName), "-", "_")
  }

  /** The stem of "<base>.csv" is the base, whatever dots the base holds. */
  lemma StemOfCsv(base: string)
    requires base != []
    ensures Stem(base + ".csv") == base
  {
    var name := base + ".csv";
    assert name[|base|] == '.';
    assert RFind(name, '.') == |base|;
    assert name[..|base|] == base;
  }

  /** Replacing a one-character pattern by a string without it removes every occurrence. */
  lemma {:induction false} ReplaceRemovesChar(s: string, c: char, rep: string)
    requires c !in rep
    ensures c !in Replace(s, [c], rep)
    decreases |s|
  {
    if s != [] {
      if StartsWith(s, [c]) {
        ReplaceRemovesChar(s[1..], c, rep);
      } else {
        assert s[0] != c;
        ReplaceRemovesChar(s[1..], c, rep);
      }
    }
  }

  /** A view name never contains '-'; for "<base>.csv" it is the base with every '-' made '_'. */
  lemma ViewAliasShape(fileName: string, base: string)
    ensures '-' !in ViewAlias(fileName)
    ensures base != [] && fileName == base + ".csv" ==> ViewAlias(fileName) == Replace(base, "-", "_")
  {
    ReplaceRemovesChar(Stem(fileName), '-', "_");
    if base != [] && fileName == base + ".csv" {
      StemOfCsv(base);
    }
  }
}
