/**
 * The Python side of the Plotly chart tool (src/pylogue/dashboarding.py):
 * the code preview used in log lines, the decision about the figure's
 * height and layout, and the ladder of error messages the tool returns
 * instead of raising.
 */
module Dashboarding {
  import opened Wrappers
  import opened Text
  import opened Json
  import opened Sizing

  // ---------------------------------------------------------------------
  // _preview
  // ---------------------------------------------------------------------

  /**
   * `" ".join(code.strip().split())`: the words of `code`, one space apart,
   * which is `code` with every whitespace run made one space and its ends
   * dropped.
   */
  function Collapse(code: string): (r: string)
    ensures r == Squeeze(code)
  {
    SqueezeIsJoinedWords(Strip(code, Whitespace));
    SqueezeOfStripped(code);
    Join(Words(Strip(code, Whitespace)), " ")
  }

  /** Python's `s[:limit]`, where a negative limit counts from the end. */
  function PyHead(s: string, limit: int): (r: string)
    ensures |r| <= |s| && r == s[..|r|]
    ensures 0 <= limit <= |s| ==> |r| == limit
    ensures limit > |s| ==> r == s
    ensures limit < 0 ==> |r| == if |s| + limit < 0 then 0 else |s| + limit
  {
    if limit >= |s| then s
    else if limit >= 0 then s[..limit]
    else if |s| + limit < 0 then []
    else s[..|s| + limit]
  }

  const PreviewLimit: int := 240

  /**
   * `_preview(code, limit)`: the collapsed code when that fits in `limit`,
   * and otherwise its first `limit` characters followed by "..."; either way
   * at most `limit + 3` characters long, and empty code gives an empty preview.
   */
  function Preview(code: string, limit: int): (r: string)
    ensures code == [] ==> r == ""
    ensures limit >= 0 && code != [] && |Collapse(code)| <= limit ==> r == Collapse(code)
    ensures limit >= 0 && code != [] && |Collapse(code)| > limit ==> r == Collapse(code)[..limit] + "..."
    ensures limit >= 0 ==> |r| <= limit + 3
  {
    if code == [] then ""
    else
      var compact := Collapse(code);
      PyHead(compact, limit) + (if |compact| > limit then "..." else "")
  }

  /** A string with no whitespace at either end and no whitespace but single spaces between words. */
  predicate Collapsed(s: string) {
    && (s != [] ==> !IsPySpace(s[0]) && !IsPySpace(s[|s| - 1]))
    && forall i :: 0 <= i < |s| && IsPySpace(s[i]) ==> s[i] == ' ' && i + 1 < |s| && !IsPySpace(s[i + 1])
  }

  /** A word, a space and a collapsed non-empty string make a collapsed string. */
  lemma CollapsedCons(w: string, rest: string)
    requires IsWord(w) && rest != [] && Collapsed(rest)
    ensures Collapsed(w + " " + rest)
  {
    var s := w + " " + rest;
    forall i | 0 <= i < |s| && IsPySpace(s[i])
      ensures s[i] == ' ' && i + 1 < |s| && !IsPySpace(s[i + 1])
    {
      if i < |w| {
        assert false;
      } else if i == |w| {
        assert s[i + 1] == rest[0];
      } else {
        assert s[i] == rest[i - |w| - 1];
        assert s[i + 1] == rest[i - |w|];
      }
    }
    assert s[0] == w[0];
    assert s[|s| - 1] == rest[|rest| - 1];
  }

  lemma {:induction false} JoinWordsCollapsed(ws: seq<string>)
    requires forall i :: 0 <= i < |ws| ==> IsWord(ws[i])
    ensures Collapsed(Join(ws, " "))
    ensures |ws| > 0 ==> Join(ws, " ") != []
  {
    if |ws| > 1 {
      JoinWordsCollapsed(ws[1..]);
      assert IsWord(ws[0]);
      CollapsedCons(ws[0], Join(ws[1..], " "));
    } else if |ws| == 1 {
      assert IsWord(ws[0]);
    }
  }

  lemma {:induction false} JoinWordsNonSpace(ws: seq<string>)
    requires forall i :: 0 <= i < |ws| ==> IsWord(ws[i])
    ensures NonSpace(Join(ws, " ")) == Concat(ws)
  {
    if |ws| == 1 {
      NonSpaceOfWord(ws[0]);
      assert Concat(ws[1..]) == [];
    } else if |ws| > 1 {
      var w, rest := ws[0], Join(ws[1..], " ");
      JoinWordsNonSpace(ws[1..]);
      assert Join(ws, " ") == (w + " ") + rest;
      NonSpaceAppend(w + " ", rest);
      NonSpaceAppend(w, " ");
      NonSpaceOfWord(w);
      assert NonSpace(" ") == [];
      assert Concat(ws) == w + Concat(ws[1..]);
    }
  }

  /** The preview's text, before truncation, is the code with its whitespace collapsed and nothing else changed. */
  lemma CollapseKeepsText(code: string)
    ensures Collapsed(Collapse(code))
    ensures NonSpace(Collapse(code)) == NonSpace(Strip(code, Whitespace))
  {
    JoinWordsCollapsed(Words(Strip(code, Whitespace)));
    JoinWordsNonSpace(Words(Strip(code, Whitespace)));
  }

  // ---------------------------------------------------------------------
  // The height rule and the layout handed to the page
  // ---------------------------------------------------------------------

  /** The figure the page receives and its height rule, or the text of the exception raised on the way. */
  datatype Prepared = Ready(fig: map<string, JVal>, rule: HeightRule) | Raised(exc: string)

  /** `fig_json.get("layout") or {}`. */
  function LayoutOf(fig: map<string, JVal>): JVal {
    if "layout" in fig && PyTruthy(fig["layout"]) then fig["layout"] else Obj(map[])
  }

  /** `layout.get("height")`. */
  function HeightOf(layout: map<string, JVal>): Option<JVal> {
    if "height" in layout then Some(layout["height"]) else None
  }

  /**
   * Lines 117-126: read the height, and when it is not explicit turn on
   * autosize and drop the width. A layout that is not a dict fails with
   * CPython's message for the operation it reaches first.
   */
  function PrepareFigure(fig: map<string, JVal>): (r: Prepared)
    ensures r.Ready? ==> "layout" in r.fig && r.fig["layout"].Obj?
    ensures r.Ready? ==> LayoutOf(fig).Obj? && r.rule == DecideHeight(HeightOf(LayoutOf(fig).fields))
    ensures r.Ready? && r.rule.explicit ==> r.fig == fig
    ensures r.Ready? && !r.rule.explicit ==>
      var before := if "layout" in fig && fig["layout"].Obj? then fig["layout"].fields else map[];
      && r.fig.Keys == fig.Keys + {"layout"}
      && (forall k :: k in fig && k != "layout" ==> r.fig[k] == fig[k])
      && r.fig["layout"].fields == before["autosize" := Bool(true)] - {"width"}
    ensures r.Raised? <==>
      !LayoutOf(fig).Obj? ||
      (!DecideHeight(HeightOf(LayoutOf(fig).fields)).explicit && "layout" in fig && !fig["layout"].Obj?)
  {
    var layout := LayoutOf(fig);
    if !layout.Obj? then Raised("'" + PyTypeName(layout) + "' object has no attribute 'get'")
    else
      var rule := DecideHeight(HeightOf(layout.fields));
      if rule.explicit then Ready(fig, rule)
      else
        var existing := if "layout" in fig then fig["layout"] else Obj(map[]);
        match existing
        case Obj(m) => Ready(fig["layout" := Obj(m["autosize" := Bool(true)] - {"width"})], rule)
        case Arr(_) => Raised("list indices must be integers or slices, not str")
        case _ => Raised("'" + PyTypeName(existing) + "' object does not support item assignment")
  }

  /**
   * A figure with a dict layout always prepares; the page's layout then has
   * an explicit numeric height exactly when the figure had one, and
   * otherwise autosizes and carries no width.
   */
  lemma {:induction false} DictLayoutPrepares(fig: map<string, JVal>, height: int)
    requires "layout" in fig && fig["layout"].Obj?
    ensures PrepareFigure(fig).Ready?
    ensures HeightOf(fig["layout"].fields) == Some(Num(height)) ==> PrepareFigure(fig).rule == HeightRule(true, height)
    ensures !PrepareFigure(fig).rule.explicit ==>
      var l := PrepareFigure(fig).fig["layout"].fields;
      "autosize" in l && l["autosize"] == Bool(true) && "width" !in l
  {
    var l := fig["layout"].fields;
    if l != map[] {
      assert PyTruthy(fig["layout"]);
    } else {
      assert LayoutOf(fig) == Obj(map[]) == fig["layout"];
    }
  }

  // ---------------------------------------------------------------------
  // render_plotly_chart_py: the error ladder
  // ---------------------------------------------------------------------

  /** What the SQL runner did with the query: rows for the data frame, or the text of its exception. */
  datatype RunnerOutcome = Rows(records: seq<JVal>) | RunnerRaised(exc: string)

  /** `fig.to_plotly_json()`: the figure's JSON, or the text of its exception. */
  datatype Serialisation = Serialised(json: map<string, JVal>) | SerialiseRaised(exc: string)

  /** What `exec` of the snippet left: an exception, no usable `fig`, or a figure. */
  datatype SnippetOutcome = ExecRaised(exc: string) | NoFigure | Figure(serialised: Serialisation)

  /** The steps after preparation that can also raise: `json.dumps`, and `store_html` with the id it returns. */
  datatype Storage = Storage(encodeError: Option<string>, storeError: Option<string>, htmlId: string)

  /** The tool's return value: a message string, or the stored chart's id and message. */
  datatype Outcome =
    | Message(text: string)
    | Stored(htmlId: string, message: string, fig: map<string, JVal>, rule: HeightRule)

  /** The return value and the query, if any, handed to the SQL runner. */
  datatype Reply = Reply(outcome: Outcome, queried: Option<string>)

  const MissingDependencies: string := "Missing dependencies. Install with: pip install \"pylogue[dashboard]\" plotly"
  const ExecPrefix: string := "Error executing Plotly code: "
  const NoFigureMessage: string := "Error: Plotly code must define a `fig` variable."
  const SerialisePrefix: string := "Error serializing Plotly figure: "
  const UnhandledPrefix: string := "Error in render_plotly_chart_py: "
  const RenderedMessage: string := "Plotly chart rendered."

  /**
   * `render_plotly_chart_py`, with the SQL runner as a function, and the
   * snippet's execution, serialisation and storage as given outcomes.
   */
  function RenderPlotlyChartPy(
    depsInstalled: bool, runner: Option<string -> RunnerOutcome>, sqlQuery: Option<string>,
    snippet: SnippetOutcome, storage: Storage): (reply: Reply)
    ensures reply.queried.Some? <==> depsInstalled && runner.Some? && sqlQuery.Some?
    ensures reply.queried.Some? ==> reply.queried == sqlQuery
    ensures reply.outcome.Stored? <==>
      && depsInstalled
      && (reply.queried.Some? ==> runner.value(sqlQuery.value).Rows?)
      && snippet.Figure? && snippet.serialised.Serialised?
      && PrepareFigure(snippet.serialised.json).Ready?
      && storage.encodeError.None? && storage.storeError.None?
    ensures reply.outcome.Stored? ==>
      var prepared := PrepareFigure(snippet.serialised.json);
      reply.outcome == Stored(storage.htmlId, RenderedMessage, prepared.fig, prepared.rule)
  {
    if !depsInstalled then Reply(Message(MissingDependencies), None)
    else
      var queried := if runner.Some? && sqlQuery.Some? then sqlQuery else None;
      if queried.Some? && runner.value(queried.value).RunnerRaised? then
        Reply(Message(UnhandledPrefix + runner.value(queried.value).exc), queried)
      else
        match snippet
        case ExecRaised(e) => Reply(Message(ExecPrefix + e), queried)
        case NoFigure => Reply(Message(NoFigureMessage), queried)
        case Figure(SerialiseRaised(e)) => Reply(Message(SerialisePrefix + e), queried)
        case Figure(Serialised(json)) =>
          match PrepareFigure(json)
          case Raised(e) => Reply(Message(UnhandledPrefix + e), queried)
          case Ready(fig, rule) =>
            if storage.encodeError.Some? then Reply(Message(UnhandledPrefix + storage.encodeError.value), queried)
            else if storage.storeError.Some? then Reply(Message(UnhandledPrefix + storage.storeError.value), queried)
            else Reply(Stored(storage.htmlId, RenderedMessage, fig, rule), queried)
  }

  /**
   * Every failure that derives from `Exception` is reported under the message of the first
   * step that failed: missing dependencies, then execution, the missing
   * figure, serialisation, and anything else under the catch-all prefix.
   */
  lemma {:induction false} FailuresAreMessages(
    depsInstalled: bool, runner: Option<string -> RunnerOutcome>, sqlQuery: Option<string>,
    snippet: SnippetOutcome, storage: Storage)
    ensures var reply := RenderPlotlyChartPy(depsInstalled, runner, sqlQuery, snippet, storage);
      var ranOk := !(runner.Some? && sqlQuery.Some?) || runner.value(sqlQuery.value).Rows?;
      && (!depsInstalled ==> reply.outcome == Message(MissingDependencies))
      && (depsInstalled && !ranOk ==> reply.outcome == Message(UnhandledPrefix + runner.value(sqlQuery.value).exc))
      && (depsInstalled && ranOk && snippet.ExecRaised? ==> reply.outcome == Message(ExecPrefix + snippet.exc))
      && (depsInstalled && ranOk && snippet.NoFigure? ==> reply.outcome == Message(NoFigureMessage))
      && (depsInstalled && ranOk && snippet.Figure? && snippet.serialised.SerialiseRaised? ==>
            reply.outcome == Message(SerialisePrefix + snippet.serialised.exc))
      && (reply.outcome.Message? ==>
            reply.outcome.text == MissingDependencies || reply.outcome.text == NoFigureMessage
            || StartsWith(reply.outcome.text, ExecPrefix) || StartsWith(reply.outcome.text, SerialisePrefix)
            || StartsWith(reply.outcome.text, UnhandledPrefix))
  {
    var reply := RenderPlotlyChartPy(depsInstalled, runner, sqlQuery, snippet, storage);
    if reply.outcome.Message? && depsInstalled {
      var t := reply.outcome.text;
      if t != NoFigureMessage {
        assert exists e :: t == ExecPrefix + e || t == SerialisePrefix + e || t == UnhandledPrefix + e;
        var e :| t == ExecPrefix + e || t == SerialisePrefix + e || t == UnhandledPrefix + e;
        assert t[..|ExecPrefix|] == ExecPrefix || t[..|SerialisePrefix|] == SerialisePrefix || t[..|UnhandledPrefix|] == UnhandledPrefix;
      }
    }
  }

  /**
   * The chart stored for a figure whose layout is a dict and has no numeric
   * height: its frame starts at 420 pixels and the page then sizes it from
   * the viewport between 280 and 560.
   */
  lemma StoredChartWithoutHeight(json: map<string, JVal>, storage: Storage, innerWidth: nat)
    requires "layout" in json && json["layout"].Obj?
    requires HeightOf(json["layout"].fields).None?
    requires storage.encodeError.None? && storage.storeError.None?
    ensures var reply := RenderPlotlyChartPy(true, None, None, Figure(Serialised(json)), storage);
      && reply.outcome.Stored?
      && reply.outcome.rule == HeightRule(false, 420)
      && 280 <= MobileHeight(reply.outcome.rule, innerWidth) <= 560
  {
    DictLayoutPrepares(json, 0);
    if json["layout"].fields == map[] {
      assert LayoutOf(json) == Obj(map[]);
    } else {
      assert PyTruthy(json["layout"]);
    }
  }
}
