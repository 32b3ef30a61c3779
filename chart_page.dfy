/**
 * The chart page the Python side emits (src/pylogue/dashboarding.py,
 * lines 127-279): a figure whose layout the script rewrites at every render,
 * a frame whose height it sets, and the Plotly calls it makes. The page
 * renders once on load, installs the linked click handler, and renders again
 * on every resize.
 */
module ChartPage {
  import opened Wrappers
  import opened Json
  import opened PlotlyCalls
  import opened PayloadNormalizer
  import opened Sizing
  import opened LinkedInteraction

  /** `eventData.points[0]`: the trace index and x value of a clicked point. */
  datatype ClickPoint = ClickPoint(curveNumber: int, x: JVal)

  /** The layout keys `render()` overwrites. */
  const SizingKeys: set<string> := {"autosize", "width", "height"}

  /** `fig.layout` as `render()` leaves it, given the layout it starts from and the height it computes. */
  function Sized(layout: map<string, JVal>, height: int): (r: map<string, JVal>)
    ensures r.Keys == layout.Keys + SizingKeys
    ensures r["autosize"] == Bool(true) && r["width"] == Null && r["height"] == Num(height)
    ensures forall k :: k in layout && k !in SizingKeys ==> r[k] == layout[k]
  {
    layout["autosize" := Bool(true)]["width" := Null]["height" := Num(height)]
  }

  /** The layout with the keys `render()` overwrites removed. */
  function WithoutSizing(layout: map<string, JVal>): map<string, JVal> {
    layout - SizingKeys
  }

  lemma WithoutSizingOfSized(layout: map<string, JVal>, height: int)
    ensures WithoutSizing(Sized(layout, height)) == WithoutSizing(layout)
  {
  }

  /** The menu pass and the sizing keys touch disjoint parts of the layout. */
  lemma {:induction false} NormalizeIgnoresSizing(layout: map<string, JVal>, traceCount: int)
    ensures WithoutSizing(NormalizeLayout(layout, traceCount)) == NormalizeLayout(WithoutSizing(layout), traceCount)
  {
    LayoutFrame(layout, traceCount);
    LayoutFrame(WithoutSizing(layout), traceCount);
  }

  class Page {
    /** `fig.data||[]`. */
    const data: seq<JVal>
    /** `fig.layout`. */
    var layout: map<string, JVal>
    /** `explicitHeight` and `defaultHeight`, fixed by the Python side. */
    const rule: HeightRule
    /** Whether the page sits in a frame (`window.frameElement`). */
    const inFrame: bool
    /** The height last written to the frame element. */
    var frameHeight: Option<int>
    /** Every Plotly call made so far, in order. */
    var calls: seq<PlotlyCall>
    /** The click handler's settings, once `setupLinkedInteraction()` has installed it. */
    var linked: Option<LinkedConfig>
    /** Whether the menu pass has run; only the corrected render reads it. */
    var menusNormalized: bool
    /** The layout as the Python side serialised it. */
    ghost const original: map<string, JVal>

    constructor(data: seq<JVal>, layout: map<string, JVal>, rule: HeightRule, inFrame: bool)
      ensures this.data == data && this.layout == layout && this.original == layout
      ensures this.rule == rule && this.inFrame == inFrame
      ensures frameHeight == None && calls == [] && linked == None && !menusNormalized
    {
      this.data := data;
      this.layout := layout;
      this.original := layout;
      this.rule := rule;
      this.inFrame := inFrame;
      frameHeight := None;
      calls := [];
      linked := None;
      menusNormalized := false;
    }

    /**
     * The layout, apart from what `render()` overwrites, is the serialised
     * one, with the menu pass applied once if it has run.
     */
    ghost predicate NormalizedOnce()
      reads this
    {
      WithoutSizing(layout) ==
        WithoutSizing(if menusNormalized then NormalizeLayout(original, TraceCount(data)) else original)
    }

    /** `normalizeUpdateMenus()`: every update button of every menu is rewritten in place. */
    method NormalizeUpdateMenus()
      modifies this`layout
      ensures layout == NormalizeLayout(old(layout), TraceCount(data))
    {
      var traceCount := TraceCount(data);
      if "updatemenus" in layout && layout["updatemenus"].Arr? {
        var menusBefore := layout["updatemenus"].items;
        var menus := menusBefore;
        var i := 0;
        while i < |menus|
          invariant layout == old(layout)
          invariant 0 <= i <= |menus| == |menusBefore|
          invariant forall j :: 0 <= j < i ==> menus[j] == NormalizeMenu(menusBefore[j], traceCount)
          invariant forall j :: i <= j < |menus| ==> menus[j] == menusBefore[j]
        {
          var menu := NormalizeMenuButtons(menus[i], traceCount);
          menus := menus[i := menu];
          i := i + 1;
        }
        assert menus == seq(|menusBefore|, j requires 0 <= j < |menusBefore| => NormalizeMenu(menusBefore[j], traceCount));
        layout := layout["updatemenus" := Arr(menus)];
      }
    }

    /**
     * `render()` as written: the menu pass, then autosize on, width cleared
     * and the height from `mobileHeight()`, the frame resized to match, and
     * one `Plotly.react`.
     */
    method Render(innerWidth: nat)
      modifies this`layout, this`frameHeight, this`calls
      ensures layout == Sized(NormalizeLayout(old(layout), TraceCount(data)), MobileHeight(rule, innerWidth))
      ensures frameHeight == if inFrame then Some(MobileHeight(rule, innerWidth)) else old(frameHeight)
      ensures calls == old(calls) + [React(data, layout)]
      ensures MenusClean(layout)
    {
      NormalizeUpdateMenus();
      NormalizedLayoutIsClean(old(layout), TraceCount(data));
      var height := MobileHeight(rule, innerWidth);
      layout := layout["autosize" := Bool(true)];
      layout := layout["width" := Null];
      layout := layout["height" := Num(height)];
      if inFrame {
        frameHeight := Some(height);
      }
      calls := calls + [React(data, layout)];
    }

    /**
     * `render()` corrected to run the menu pass only on the first render, so
     * that later renders leave the buttons as the first one made them.
     */
    method RenderNormalizingOnce(innerWidth: nat)
      requires NormalizedOnce()
      modifies this`layout, this`frameHeight, this`calls, this`menusNormalized
      ensures NormalizedOnce() && menusNormalized
      ensures layout == Sized(if old(menusNormalized) then old(layout) else NormalizeLayout(old(layout), TraceCount(data)),
                              MobileHeight(rule, innerWidth))
      ensures frameHeight == if inFrame then Some(MobileHeight(rule, innerWidth)) else old(frameHeight)
      ensures calls == old(calls) + [React(data, layout)]
    {
      if !menusNormalized {
        NormalizeUpdateMenus();
        NormalizeIgnoresSizing(old(layout), TraceCount(data));
        NormalizeIgnoresSizing(original, TraceCount(data));
        menusNormalized := true;
      }
      var height := MobileHeight(rule, innerWidth);
      WithoutSizingOfSized(layout, height);
      layout := Sized(layout, height);
      if inFrame {
        frameHeight := Some(height);
      }
      calls := calls + [React(data, layout)];
    }

    /** The resize handlers: a render, then `Plotly.Plots.resize`. */
    method OnResize(innerWidth: nat)
      requires NormalizedOnce()
      modifies this`layout, this`frameHeight, this`calls, this`menusNormalized
      ensures NormalizedOnce() && menusNormalized
      ensures layout == Sized(if old(menusNormalized) then old(layout) else NormalizeLayout(old(layout), TraceCount(data)),
                              MobileHeight(rule, innerWidth))
      ensures calls == old(calls) + [React(data, layout), Resize]
    {
      RenderNormalizingOnce(innerWidth);
      calls := calls + [Resize];
    }

    /** `setupLinkedInteraction()`: install the click handler when the layout carries its settings. */
    method SetupLinkedInteraction()
      modifies this`linked
      ensures linked == ReadLinkedConfig(layout)
    {
      linked := ReadLinkedConfig(layout);
    }

    /**
     * The `plotly_click` handler: the calls of `ClickCalls` for the first
     * clicked point, or none when there is no point or no handler.
     * `fullYAxes[i]` is the y-axis reference Plotly assigned to trace `i`.
     */
    method Click(points: seq<ClickPoint>, fullYAxes: seq<string>)
      modifies this`calls
      ensures calls == old(calls) +
        if |points| == 0 || linked.None? then []
        else ClickCalls(linked.value, layout, fullYAxes, points[0].curveNumber, points[0].x)
    {
      if |points| == 0 || linked.None? {
        return;
      }
      var cfg := linked.value;
      var point := points[0];
      if point.curveNumber != cfg.sourceTrace {
        return;
      }
      var payload := ResolvePayload(cfg.lookup, ActiveSeason(layout, cfg), JsString(point.x));
      if payload.None? {
        return;
      }
      var p := payload.value;
      var update := BuildUpdate(p);
      if update == map[] {
        return;
      }
      var made: seq<PlotlyCall> := [];
      if HasTextualY(p) {
        var yKey := YLayoutKey(TargetYRef(fullYAxes, cfg.targetTrace));
        made := [Relayout(map[yKey + ".type" := Str("category")])];
      }
      made := made + [Restyle(update, [cfg.targetTrace])];
      var title := TitleCall(layout, cfg, p);
      if title.Some? {
        made := made + [title.value];
      }
      calls := calls + made;
    }
  }

  /** The handler's loop over x, y, text and customdata, building the restyle update. */
  method BuildUpdate(p: JVal) returns (update: map<string, JVal>)
    ensures update == ClickUpdate(p)
  {
    update := map[];
    TraceKeysDistinct();
    for j := 0 to |TraceKeys|
      invariant forall k :: k in update <==> k in TraceKeys[..j] && Member(p, k).Some?
      invariant forall k :: k in update ==> update[k] == ClickUpdate(p)[k]
    {
      var key := TraceKeys[j];
      assert forall k :: k in TraceKeys[..j + 1] <==> k in TraceKeys[..j] || k == key;
      var v := Member(p, key);
      if v.Some? {
        update := update[key := Arr([if key == "customdata" then v.value else NormalizeLinkedSeries(v.value)])];
      }
    }
    assert TraceKeys[..|TraceKeys|] == TraceKeys;
  }

  /**
   * The page's start-up: `render()` then `setupLinkedInteraction()`.
   */
  method Start(data: seq<JVal>, layout: map<string, JVal>, rule: HeightRule, inFrame: bool, innerWidth: nat)
    returns (page: Page)
    ensures fresh(page) && page.NormalizedOnce() && page.menusNormalized
    ensures page.layout == Sized(NormalizeLayout(layout, TraceCount(data)), MobileHeight(rule, innerWidth))
    ensures page.calls == [React(data, page.layout)]
    ensures page.linked == ReadLinkedConfig(layout)
  {
    page := new Page(data, layout, rule, inFrame);
    page.RenderNormalizingOnce(innerWidth);
    page.SetupLinkedInteraction();
    ReadsMetaOnly(layout, TraceCount(data), MobileHeight(rule, innerWidth));
  }

  /** Rendering does not change what `setupLinkedInteraction()` reads. */
  lemma {:induction false} ReadsMetaOnly(layout: map<string, JVal>, traceCount: int, height: int)
    ensures ReadLinkedConfig(Sized(NormalizeLayout(layout, traceCount), height)) == ReadLinkedConfig(layout)
  {
    LayoutFrame(layout, traceCount);
    var r := Sized(NormalizeLayout(layout, traceCount), height);
    assert "meta" in r <==> "meta" in layout;
    assert "meta" in layout ==> r["meta"] == layout["meta"];
  }

  // ---------------------------------------------------------------------
  // Rendering again
  // ---------------------------------------------------------------------

  /**
   * As written, a second render changes the buttons the first render
   * produced: on a one-trace figure whose update button sets `text` to the
   * bare string "t", one render leaves `["t"]` and two leave `[["t"]]`.
   */
  lemma SecondRenderChangesButtons(height: int)
    ensures var once := Sized(NormalizeLayout(ScalarTextLayout(), 1), height);
      Sized(NormalizeLayout(once, 1), height)["updatemenus"] != once["updatemenus"]
  {
    var L := ScalarTextLayout();
    var n1 := NormalizeLayout(L, 1);
    var once := Sized(n1, height);
    ScalarLayoutNotIdempotent();
    LayoutFrame(n1, 1);
    LayoutFrame(once, 1);
    assert once["updatemenus"] == n1["updatemenus"];
    assert NormalizeLayout(once, 1)["updatemenus"] == NormalizeLayout(n1, 1)["updatemenus"];
  }

  /** With the corrected render, every render after the first leaves the buttons alone. */
  method RenderTwice(data: seq<JVal>, layout: map<string, JVal>, rule: HeightRule, w1: nat, w2: nat)
    returns (afterOne: map<string, JVal>, afterTwo: map<string, JVal>)
    ensures WithoutSizing(afterOne) == WithoutSizing(afterTwo)
    ensures WithoutSizing(afterTwo) == WithoutSizing(NormalizeLayout(layout, TraceCount(data)))
  {
    var page := new Page(data, layout, rule, false);
    page.RenderNormalizingOnce(w1);
    afterOne := page.layout;
    page.RenderNormalizingOnce(w2);
    afterTwo := page.layout;
  }
}
