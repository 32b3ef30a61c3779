/**
 * The linked-interaction contract and its click handler
 * (`setupLinkedInteraction` in src/pylogue/dashboarding.py). A snippet puts
 * `layout.meta.pylogue_linked_interaction` on the figure; a click on a point
 * of the source trace looks up a payload under "<season>||<label>", then
 * under "<label>", and restyles the target trace with it, switching the
 * target's y-axis to categories and retitling an annotation when the payload
 * asks for it. Here the handler computes the Plotly calls it would make.
 */
module LinkedInteraction {
  import opened Wrappers
  import opened Text
  import opened Json
  import opened PlotlyCalls
  import PayloadNormalizer

  /** The handler's settings, read once from the figure's `meta`. */
  datatype LinkedConfig = LinkedConfig(
    sourceTrace: int,
    targetTrace: int,
    seasonMenuIndex: int,
    lookup: JVal,
    defaultSeason: string,
    titleAnnotationIndex: Option<int>)

  /** `Number.isInteger(v) ? v : fallback`. */
  function IntegerOr(v: Option<JVal>, fallback: int): int {
    match AsInteger(v)
    case Some(n) => n
    case None => fallback
  }

  /**
   * The configuration `setupLinkedInteraction` builds, or `None` when it
   * returns early because `meta.pylogue_linked_interaction` is missing or
   * not an object (arrays pass JavaScript's `typeof` test and yield all the
   * defaults).
   */
  function ReadLinkedConfig(layout: map<string, JVal>): (cfg: Option<LinkedConfig>)
    ensures cfg.Some? <==>
      && "meta" in layout
      && Member(layout["meta"], "pylogue_linked_interaction").Some?
      && IsJsObject(Member(layout["meta"], "pylogue_linked_interaction").value)
    ensures cfg.Some? ==> cfg.value.lookup.Obj? || cfg.value.lookup.Arr?
  {
    var meta := if "meta" in layout && JsTruthy(layout["meta"]) then layout["meta"] else Obj(map[]);
    var contract := Member(meta, "pylogue_linked_interaction");
    if contract.None? || !JsTruthy(contract.value) || !IsJsObject(contract.value) then None
    else
      var m := contract.value;
      var lookup := Member(m, "lookup");
      var season := Member(m, "default_season");
      Some(LinkedConfig(
        IntegerOr(Member(m, "source_trace"), 0),
        IntegerOr(Member(m, "target_trace"), 1),
        IntegerOr(Member(m, "season_menu_index"), 0),
        if lookup.Some? && JsTruthy(lookup.value) && IsJsObject(lookup.value) then lookup.value else Obj(map[]),
        if season.None? || season.value.Null? then "" else JsString(season.value),
        AsInteger(Member(m, "target_title_annotation_index"))))
  }

  /** A contract that gives only a lookup table gets source 0, target 1, menu 0, season "" and no title index. */
  lemma MissingFieldsDefault(layout: map<string, JVal>, table: map<string, JVal>)
    requires "meta" in layout
    requires layout["meta"] == Obj(map["pylogue_linked_interaction" := Obj(map["lookup" := Obj(table)])])
    ensures ReadLinkedConfig(layout) == Some(LinkedConfig(0, 1, 0, Obj(table), "", None))
  {
  }

  /**
   * Each field the contract object gives is taken when it has the right
   * kind: integers for the trace and menu indices and the title index, an
   * object or array for the lookup, anything but null for the season.
   * Otherwise the field gets its default.
   */
  lemma ContractFieldsTaken(layout: map<string, JVal>, m: map<string, JVal>)
    requires "meta" in layout && Member(layout["meta"], "pylogue_linked_interaction") == Some(Obj(m))
    ensures ReadLinkedConfig(layout).Some?
    ensures var cfg := ReadLinkedConfig(layout).value;
      && cfg.sourceTrace == (if "source_trace" in m && m["source_trace"].Num? then m["source_trace"].n else 0)
      && cfg.targetTrace == (if "target_trace" in m && m["target_trace"].Num? then m["target_trace"].n else 1)
      && cfg.seasonMenuIndex == (if "season_menu_index" in m && m["season_menu_index"].Num? then m["season_menu_index"].n else 0)
      && cfg.lookup == (if "lookup" in m && IsJsObject(m["lookup"]) then m["lookup"] else Obj(map[]))
      && cfg.defaultSeason == (if "default_season" in m && !m["default_season"].Null? then JsString(m["default_season"]) else "")
      && cfg.titleAnnotationIndex ==
           (if "target_title_annotation_index" in m && m["target_title_annotation_index"].Num?
            then Some(m["target_title_annotation_index"].n) else None)
  {
  }

  /** Reading element `i` of an array through its property key `String(i)`. */
  lemma {:induction false} ArrayIndexMember(items: seq<JVal>, i: int)
    ensures Member(Arr(items), IntToString(i)) == if 0 <= i < |items| then Some(items[i]) else None
  {
    if i >= 0 {
      CanonicalIndexInverse(IntToString(i), i);
    } else {
      assert IntToString(i)[0] == '-';
      assert !IsCanonicalIndex(IntToString(i));
    }
  }

  // ---------------------------------------------------------------------
  // activeSeason
  // ---------------------------------------------------------------------

  /**
   * `activeSeason()`: the label of the active button of the season menu, or
   * the default season when the menu, the button or the label is missing.
   */
  function ActiveSeason(layout: map<string, JVal>, cfg: LinkedConfig): (season: string)
    ensures "updatemenus" !in layout || !JsTruthy(layout["updatemenus"]) ==> season == cfg.defaultSeason
  {
    var menus := if "updatemenus" in layout && JsTruthy(layout["updatemenus"]) then layout["updatemenus"] else Arr([]);
    var menu := Member(menus, IntToString(cfg.seasonMenuIndex));
    if menu.None? || !JsTruthy(menu.value) then cfg.defaultSeason
    else
      var buttons := Member(menu.value, "buttons");
      if buttons.None? || !buttons.value.Arr? then cfg.defaultSeason
      else
        var active := IntegerOr(Member(menu.value, "active"), 0);
        var btn := Member(buttons.value, IntToString(active));
        if btn.None? || !JsTruthy(btn.value) then cfg.defaultSeason
        else
          var caption := Member(btn.value, "label");
          if caption.None? || caption.value.Null? then cfg.defaultSeason
          else JsString(caption.value)
  }

  /**
   * On a layout whose `updatemenus` is an array, the active season is read by
   * plain indexing: menu `seasonMenuIndex`, its button `active` (0 when
   * `active` is not an integer), that button's label; any step that finds
   * nothing gives the default season.
   */
  lemma {:induction false} ActiveSeasonByIndex(layout: map<string, JVal>, cfg: LinkedConfig, menus: seq<JVal>)
    requires "updatemenus" in layout && layout["updatemenus"] == Arr(menus)
    ensures ActiveSeason(layout, cfg) ==
      var i := cfg.seasonMenuIndex;
      if 0 <= i < |menus| && menus[i].Obj? && "buttons" in menus[i].fields && menus[i].fields["buttons"].Arr? then
        var m := menus[i].fields;
        var bs := m["buttons"].items;
        var active := if "active" in m && m["active"].Num? then m["active"].n else 0;
        if 0 <= active < |bs| && bs[active].Obj? && "label" in bs[active].fields && !bs[active].fields["label"].Null?
        then JsString(bs[active].fields["label"])
        else cfg.defaultSeason
      else cfg.defaultSeason
  {
    var i := cfg.seasonMenuIndex;
    ArrayIndexMember(menus, i);
    if 0 <= i < |menus| && menus[i].Obj? && "buttons" in menus[i].fields && menus[i].fields["buttons"].Arr? {
      var m := menus[i].fields;
      var bs := m["buttons"].items;
      var active := IntegerOr(Member(menus[i], "active"), 0);
      ArrayIndexMember(bs, active);
    }
  }

  // ---------------------------------------------------------------------
  // The two-step lookup
  // ---------------------------------------------------------------------

  /** The composite key "<season>||<label>". */
  function CombinedKey(season: string, name: string): string {
    season + "||" + name
  }

  /**
   * `lookup[combinedKey]||lookup[name]`, kept only when it is a truthy
   * object; `None` means the handler returns without acting.
   */
  function ResolvePayload(lookup: JVal, season: string, name: string): (p: Option<JVal>)
    ensures p.Some? ==> IsJsObject(p.value)
  {
    var combined := Member(lookup, CombinedKey(season, name));
    var payload := if combined.Some? && JsTruthy(combined.value) then combined else Member(lookup, name);
    if payload.Some? && JsTruthy(payload.value) && IsJsObject(payload.value) then payload else None
  }

  /**
   * The composite key wins: when it names an object, the bare label is never
   * consulted; when it names nothing, the bare label decides alone.
   */
  lemma LookupPrecedence(table: map<string, JVal>, season: string, name: string)
    ensures CombinedKey(season, name) in table && IsJsObject(table[CombinedKey(season, name)]) ==>
      ResolvePayload(Obj(table), season, name) == Some(table[CombinedKey(season, name)])
    ensures CombinedKey(season, name) !in table ==>
      ResolvePayload(Obj(table), season, name) ==
        if name in table && IsJsObject(table[name]) then Some(table[name]) else None
  {
  }

  // ---------------------------------------------------------------------
  // The patch
  // ---------------------------------------------------------------------

  /** `normalizeLinkedSeries(value)`: `[[...]]` becomes `[...]`; every other value is kept. */
  function NormalizeLinkedSeries(v: JVal): (r: JVal)
    ensures r == v || v == Arr([r])
  {
    if v.Arr? && |v.items| == 1 && v.items[0].Arr? then v.items[0] else v
  }

  /**
   * For one trace, the handler's wrapping `[normalizeLinkedSeries(v)]`
   * agrees with the menu normaliser `normalizePerTraceValue(v, 1)` on every
   * array except those with two or more entries whose first is an array,
   * which the normaliser keeps and the handler wraps.
   */
  lemma {:induction false} ClickWrapMatchesNormaliser(v: JVal)
    requires v.Arr?
    ensures Arr([NormalizeLinkedSeries(v)]) == PayloadNormalizer.NormalizePerTraceValue(v, 1)
        <==> !(|v.items| >= 2 && v.items[0].Arr?)
  {
    if |v.items| >= 2 && v.items[0].Arr? {
      PayloadNormalizer.WrapChanges(v);
    }
  }

  /**
   * The restyle update: every key of x, y, text and customdata that the
   * payload has, as a one-trace array; customdata is passed through as it is.
   */
  function ClickUpdate(payload: JVal): (update: map<string, JVal>)
    ensures forall k :: k in update <==> k in PayloadNormalizer.TraceKeys && Member(payload, k).Some?
  {
    map k | k in PayloadNormalizer.TraceKeys && Member(payload, k).Some? ::
      Arr([if k == "customdata" then Member(payload, k).value else NormalizeLinkedSeries(Member(payload, k).value)])
  }

  /** `String(target.yaxis||'y')` for the target trace, from the axis each trace is drawn on ("" when unset). */
  function TargetYRef(fullYAxes: seq<string>, target: int): (r: string)
    ensures r != ""
    ensures 0 <= target < |fullYAxes| && fullYAxes[target] != "" ==> r == fullYAxes[target]
    ensures !(0 <= target < |fullYAxes|) || fullYAxes[target] == "" ==> r == "y"
  {
    if 0 <= target < |fullYAxes| && fullYAxes[target] != "" then fullYAxes[target] else "y"
  }

  /** The layout key of an axis reference: "y" is "yaxis", "yN" is "yaxisN". */
  function YLayoutKey(yRef: string): (r: string)
    requires yRef != ""
    ensures yRef == "y" ==> r == "yaxis"
    ensures StartsWith(r, "yaxis") && |r| == |yRef| + 4
  {
    if yRef == "y" then "yaxis" else "yaxis" + yRef[1..]
  }

  lemma YLayoutKeyOfNumberedAxis(n: nat)
    requires n >= 2
    ensures YLayoutKey("y" + NatToString(n)) == "yaxis" + NatToString(n)
  {
    assert ("y" + NatToString(n))[1..] == NatToString(n);
  }

  /** The payload's `y` is a non-empty array whose first entry is a string. */
  predicate HasTextualY(payload: JVal) {
    var y := Member(payload, "y");
    y.Some? && y.value.Arr? && |y.value.items| > 0 && y.value.items[0].Str?
  }

  /** `gd.layout.annotations.length`, with a missing or non-array value counting as none. */
  function AnnotationCount(layout: map<string, JVal>): (count: nat)
    ensures count > 0 ==> "annotations" in layout && layout["annotations"].Arr? && count == |layout["annotations"].items|
  {
    if "annotations" in layout && layout["annotations"].Arr? then |layout["annotations"].items| else 0
  }

  /** The configured annotation index, else 1 when there is more than one annotation, else 0. */
  function TitleIndex(cfg: LinkedConfig, annotations: nat): (idx: int)
    ensures cfg.titleAnnotationIndex.Some? ==> idx == cfg.titleAnnotationIndex.value
    ensures cfg.titleAnnotationIndex.None? ==> (idx == 1 <==> annotations >= 2) && (idx == 0 <==> annotations < 2)
  {
    match cfg.titleAnnotationIndex
    case Some(i) => i
    case None => if annotations > 1 then 1 else 0
  }

  /**
   * The retitling relayout: the text of the chosen annotation when it
   * exists, else the chart title. None when the payload has no truthy title.
   */
  function TitleCall(layout: map<string, JVal>, cfg: LinkedConfig, payload: JVal): (c: Option<PlotlyCall>)
    ensures c.Some? <==> Member(payload, "title").Some? && JsTruthy(Member(payload, "title").value)
    ensures c.Some? ==> c.value.Relayout? && |c.value.patch| == 1
  {
    var title := Member(payload, "title");
    if title.None? || !JsTruthy(title.value) then None
    else
      var text := Str(JsString(title.value));
      var count := AnnotationCount(layout);
      var idx := TitleIndex(cfg, count);
      if count > 0 && 0 <= idx < count then
        Some(Relayout(map["annotations[" + IntToString(idx) + "].text" := text]))
      else
        Some(Relayout(map["title" := text]))
  }

  /** The click handler's calls for a point on trace `curveNumber` at `x`. */
  function ClickCalls(cfg: LinkedConfig, layout: map<string, JVal>, fullYAxes: seq<string>, curveNumber: int, x: JVal): (calls: seq<PlotlyCall>)
    ensures |calls| <= 3
    ensures forall i :: 0 <= i < |calls| && calls[i].Restyle? ==> calls[i].traces == [cfg.targetTrace]
  {
    if curveNumber != cfg.sourceTrace then []
    else
      var payload := ResolvePayload(cfg.lookup, ActiveSeason(layout, cfg), JsString(x));
      if payload.None? then []
      else
        var update := ClickUpdate(payload.value);
        if update == map[] then []
        else
          var axis := if HasTextualY(payload.value)
            then [Relayout(map[YLayoutKey(TargetYRef(fullYAxes, cfg.targetTrace)) + ".type" := Str("category")])]
            else [];
          var title := TitleCall(layout, cfg, payload.value);
          axis + [Restyle(update, [cfg.targetTrace])] + (if title.Some? then [title.value] else [])
  }

  // ---------------------------------------------------------------------
  // Properties of the handler
  // ---------------------------------------------------------------------

  /** A click on any trace but the source does nothing. */
  lemma OtherTraceIgnored(cfg: LinkedConfig, layout: map<string, JVal>, fullYAxes: seq<string>, curveNumber: int, x: JVal)
    requires curveNumber != cfg.sourceTrace
    ensures ClickCalls(cfg, layout, fullYAxes, curveNumber, x) == []
  {
  }

  /**
   * A click that acts makes exactly one restyle, on the target trace only,
   * whose update holds the payload's per-trace keys; it is preceded by a
   * switch of the target's y-axis to categories exactly when the payload's y
   * starts with a string, and followed by one retitling relayout exactly
   * when the payload has a truthy title. A click whose payload is missing,
   * not an object, or without any per-trace key makes no call at all.
   */
  lemma {:induction false} ClickShape(cfg: LinkedConfig, layout: map<string, JVal>, fullYAxes: seq<string>, curveNumber: int, x: JVal)
    ensures var calls := ClickCalls(cfg, layout, fullYAxes, curveNumber, x);
      var payload := ResolvePayload(cfg.lookup, ActiveSeason(layout, cfg), JsString(x));
      && (calls != [] <==> curveNumber == cfg.sourceTrace && payload.Some? && ClickUpdate(payload.value) != map[])
      && (calls != [] ==>
            var restyleAt := if HasTextualY(payload.value) then 1 else 0;
            var title := TitleCall(layout, cfg, payload.value);
            && |calls| == restyleAt + 1 + (if title.Some? then 1 else 0)
            && calls[restyleAt] == Restyle(ClickUpdate(payload.value), [cfg.targetTrace])
            && (restyleAt == 1 ==>
                  calls[0] == Relayout(map[YLayoutKey(TargetYRef(fullYAxes, cfg.targetTrace)) + ".type" := Str("category")]))
            && (title.Some? ==> calls[|calls| - 1] == title.value)
            && (forall i :: 0 <= i < |calls| && i != restyleAt ==> calls[i].Relayout?))
  {
    var calls := ClickCalls(cfg, layout, fullYAxes, curveNumber, x);
    var payload := ResolvePayload(cfg.lookup, ActiveSeason(layout, cfg), JsString(x));
  }

  /**
   * A one-trace series `[[...]]` reaches the restyle as it is; every other
   * value, and customdata always, is wrapped once as one trace's value.
   */
  lemma ClickUpdateValues(payload: JVal, k: string)
    requires k in ClickUpdate(payload)
    ensures var v := Member(payload, k).value;
      var u := ClickUpdate(payload)[k];
      && (u == v <==> k != "customdata" && v.Arr? && |v.items| == 1 && v.items[0].Arr?)
      && (u != v ==> u == Arr([v]))
  {
    var v := Member(payload, k).value;
    assert v in Arr([v]).items;
  }

  /** The retitle goes to the configured annotation when that annotation exists. */
  lemma TitleToConfiguredAnnotation(layout: map<string, JVal>, cfg: LinkedConfig, payload: JVal, i: int)
    requires TitleCall(layout, cfg, payload).Some?
    requires cfg.titleAnnotationIndex == Some(i) && 0 <= i < AnnotationCount(layout)
    ensures TitleCall(layout, cfg, payload).value ==
      Relayout(map["annotations[" + NatToString(i) + "].text" := Str(JsString(Member(payload, "title").value))])
  {
  }

  /**
   * With no configured index, the retitle goes to annotation 1 when there
   * are two or more annotations and to annotation 0 when there is one.
   */
  lemma TitleToDefaultAnnotation(layout: map<string, JVal>, cfg: LinkedConfig, payload: JVal)
    requires TitleCall(layout, cfg, payload).Some?
    requires cfg.titleAnnotationIndex.None? && AnnotationCount(layout) >= 1
    ensures TitleCall(layout, cfg, payload).value ==
      Relayout(map[(if AnnotationCount(layout) >= 2 then "annotations[1].text" else "annotations[0].text") :=
        Str(JsString(Member(payload, "title").value))])
  {
    assert IntToString(1) == "1" && IntToString(0) == "0";
    assert "annotations[" + "1" + "].text" == "annotations[1].text";
    assert "annotations[" + "0" + "].text" == "annotations[0].text";
  }

  /** Without annotations, or with a configured index that names none, the chart title is set. */
  lemma TitleToChartTitle(layout: map<string, JVal>, cfg: LinkedConfig, payload: JVal)
    requires TitleCall(layout, cfg, payload).Some?
    requires AnnotationCount(layout) == 0
      || (cfg.titleAnnotationIndex.Some? && !(0 <= cfg.titleAnnotationIndex.value < AnnotationCount(layout)))
    ensures TitleCall(layout, cfg, payload).value == Relayout(map["title" := Str(JsString(Member(payload, "title").value))])
  {
  }

  // ---------------------------------------------------------------------
  // A worked click
  // ---------------------------------------------------------------------

  /** A layout whose season menu (menu 0) has the buttons "2019" and "2020", with `active` selecting one. */
  function SeasonLayout(active: int): map<string, JVal> {
    map["updatemenus" := Arr([Obj(map[
      "active" := Num(active),
      "buttons" := Arr([Obj(map["label" := Str("2019")]), Obj(map["label" := Str("2020")])])])])]
  }

  /** The lookup `{"2020||MI": {"y": [10, 20], "title": "MI 2020"}}`, targeting trace 1. */
  function SeasonConfig(): LinkedConfig {
    LinkedConfig(0, 1, 0,
      Obj(map["2020||MI" := Obj(map["y" := Arr([Num(10), Num(20)]), "title" := Str("MI 2020")])]),
      "", None)
  }

  /** With button `active` selected, the active season is that button's label. */
  lemma SeasonOfExample(active: int)
    requires active == 0 || active == 1
    ensures ActiveSeason(SeasonLayout(active), SeasonConfig()) == if active == 1 then "2020" else "2019"
  {
    ActiveSeasonByIndex(SeasonLayout(active), SeasonConfig(), SeasonLayout(active)["updatemenus"].items);
  }

  /** The lookup's entry for "2020||MI". */
  function SeasonEntry(): JVal {
    Obj(map["y" := Arr([Num(10), Num(20)]), "title" := Str("MI 2020")])
  }

  lemma SeasonEntryFound()
    ensures ResolvePayload(SeasonConfig().lookup, "2020", "MI") == Some(SeasonEntry())
  {
    assert CombinedKey("2020", "MI") == "2020||MI";
  }

  lemma SeasonEntryUpdate()
    ensures ClickUpdate(SeasonEntry()) == map["y" := Arr([Arr([Num(10), Num(20)])])]
    ensures !HasTextualY(SeasonEntry())
  {
    var u := ClickUpdate(SeasonEntry());
    assert "y" in u;
    assert u.Keys == {"y"};
  }

  lemma SeasonEntryTitle()
    ensures TitleCall(SeasonLayout(1), SeasonConfig(), SeasonEntry()) == Some(Relayout(map["title" := Str("MI 2020")]))
  {
    assert AnnotationCount(SeasonLayout(1)) == 0;
  }

  /**
   * Clicking the "MI" bar of the source trace while "2020" is active
   * restyles the target with `y = [[10, 20]]` and retitles the chart.
   */
  lemma SeasonClickActs()
    ensures ClickCalls(SeasonConfig(), SeasonLayout(1), [], 0, Str("MI")) ==
      [Restyle(map["y" := Arr([Arr([Num(10), Num(20)])])], [1]), Relayout(map["title" := Str("MI 2020")])]
  {
    SeasonOfExample(1);
    SeasonEntryFound();
    SeasonEntryUpdate();
    SeasonEntryTitle();
  }

  /** With "2019" active there is no matching key and no bare "MI" entry, so the click does nothing. */
  lemma SeasonClickIgnored()
    ensures ClickCalls(SeasonConfig(), SeasonLayout(0), [], 0, Str("MI")) == []
  {
    var cfg := SeasonConfig();
    SeasonOfExample(0);
    assert CombinedKey("2019", "MI")[3] != "2020||MI"[3];
    assert "MI" != "2020||MI";
    assert ResolvePayload(cfg.lookup, "2019", "MI") == None;
  }
}
