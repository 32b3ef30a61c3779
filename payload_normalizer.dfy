/**
 * The page script's pre-render pass over the figure's dropdown menus
 * (`normalizePerTraceValue`, `stripFragileAnnotationKeys` and
 * `normalizeUpdateMenus` in src/pylogue/dashboarding.py). An "update"
 * button applies a data patch to every trace; Plotly reads each per-trace
 * key of that patch as an array with one entry per trace, so a flat array
 * meant for a single trace has to be wrapped once more, or the chart goes
 * blank when the button is chosen.
 */
module PayloadNormalizer {
  import opened Text
  import opened Json

  /** `TRACE_KEYS`: the per-trace keys the page script reshapes. */
  const TraceKeys: seq<string> := ["x", "y", "text", "customdata"]

  lemma TraceKeysDistinct()
    ensures forall i, j :: 0 <= i < j < |TraceKeys| ==> TraceKeys[i] != TraceKeys[j]
  {
  }

  // ---------------------------------------------------------------------
  // normalizePerTraceValue
  // ---------------------------------------------------------------------

  /**
   * A value already laid out one entry per trace, which the normaliser
   * leaves alone: an array whose first entry is itself an array, or (with
   * several traces) an array with exactly one array-or-null entry per trace.
   */
  predicate PerTraceShaped(v: JVal, traceCount: int) {
    && v.Arr?
    && (|| (|v.items| > 0 && v.items[0].Arr?)
        || (traceCount > 1 && |v.items| == traceCount
            && forall i :: 0 <= i < |v.items| ==> v.items[i].Arr? || v.items[i].Null?))
  }

  /** `normalizePerTraceValue(value, traceCount)`. */
  function NormalizePerTraceValue(value: JVal, traceCount: int): (r: JVal)
    ensures r == value || r == Arr([value])
    ensures value.Null? ==> r == Null
    ensures !value.Null? && !value.Arr? ==> r == Arr([value])
  {
    match value
    case Null => value
    case Arr(items) =>
      if traceCount == 1 then
        if |items| == 0 then Arr([Arr([])])
        else if items[0].Arr? then value
        else Arr([value])
      else if |items| == traceCount && forall i :: 0 <= i < |items| ==> items[i].Arr? || items[i].Null? then value
      else if |items| == 0 || !items[0].Arr? then Arr([value])
      else value
    case _ => Arr([value])
  }

  lemma WrapChanges(v: JVal)
    ensures Arr([v]) != v
  {
    assert v in Arr([v]).items;
  }

  /**
   * For any present value and any trace count of at least one, the
   * normaliser leaves exactly the per-trace-shaped values unchanged and
   * wraps every other value once.
   */
  lemma {:induction false} NormalizeCharacterised(v: JVal, traceCount: int)
    requires traceCount >= 1 && !v.Null?
    ensures NormalizePerTraceValue(v, traceCount) == if PerTraceShaped(v, traceCount) then v else Arr([v])
  {
    WrapChanges(v);
    if v.Arr? && traceCount == 1 && |v.items| == 0 {
      assert Arr([Arr([])]) == Arr([v]);
    }
  }

  /** Whatever array comes in, what comes out is per-trace shaped. */
  lemma {:induction false} NormalizeShapesArrays(v: JVal, traceCount: int)
    requires traceCount >= 1 && v.Arr?
    ensures PerTraceShaped(NormalizePerTraceValue(v, traceCount), traceCount)
  {
    NormalizeCharacterised(v, traceCount);
  }

  /**
   * On null and on arrays the normaliser is idempotent, so the page may run
   * it again on every render without changing the payload a second time.
   */
  lemma {:induction false} NormalizeIdempotentOnArrays(v: JVal, traceCount: int)
    requires traceCount >= 1 && (v.Arr? || v.Null?)
    ensures NormalizePerTraceValue(NormalizePerTraceValue(v, traceCount), traceCount)
         == NormalizePerTraceValue(v, traceCount)
  {
    if v.Arr? {
      var r := NormalizePerTraceValue(v, traceCount);
      NormalizeShapesArrays(v, traceCount);
      NormalizeCharacterised(r, traceCount);
    }
  }

  /** On a bare scalar it is not: "t" becomes ["t"], which a second pass wraps again. */
  lemma ScalarIsWrappedTwice()
    ensures NormalizePerTraceValue(Str("t"), 1) == Arr([Str("t")])
    ensures NormalizePerTraceValue(NormalizePerTraceValue(Str("t"), 1), 1) == Arr([Arr([Str("t")])])
  {
  }

  // ---------------------------------------------------------------------
  // stripFragileAnnotationKeys
  // ---------------------------------------------------------------------

  /** A positional annotation-text key such as "annotations[1].text". */
  predicate IsFragileAnnotationKey(k: string) {
    StartsWith(k, "annotations[") && EndsWith(k, "].text")
  }

  /** The object without its fragile annotation keys. */
  function Stripped(obj: map<string, JVal>): map<string, JVal> {
    map k | k in obj && !IsFragileAnnotationKey(k) :: obj[k]
  }

  /** `stripFragileAnnotationKeys(obj)`: deletes the fragile keys one by one. */
  method StripFragileAnnotationKeys(obj: map<string, JVal>) returns (r: map<string, JVal>)
    ensures forall k :: k in r <==> k in obj && !IsFragileAnnotationKey(k)
    ensures forall k :: k in r ==> r[k] == obj[k]
    ensures r == Stripped(obj)
  {
    r := obj;
    var keys := obj.Keys;
    while keys != {}
      invariant keys <= obj.Keys
      invariant forall k :: k in r <==> k in obj && (k in keys || !IsFragileAnnotationKey(k))
      invariant forall k :: k in r ==> r[k] == obj[k]
      decreases keys
    {
      var key :| key in keys;
      if IsFragileAnnotationKey(key) {
        r := r - {key};
      }
      keys := keys - {key};
    }
  }

  // ---------------------------------------------------------------------
  // normalizeUpdateMenus, as functions on values
  // ---------------------------------------------------------------------

  /** `(fig.data||[]).length||1`. */
  function TraceCount(data: seq<JVal>): (n: int)
    ensures n >= 1
  {
    if |data| == 0 then 1 else |data|
  }

  /** The data patch of an update button after its per-trace keys are reshaped and its fragile keys deleted. */
  function NormalizeDataArgs(d: map<string, JVal>, traceCount: int): (r: map<string, JVal>)
    ensures forall k :: k in r <==> k in d && !IsFragileAnnotationKey(k)
    ensures forall k :: k in r && k !in TraceKeys ==> r[k] == d[k]
  {
    Stripped(map k | k in d :: if k in TraceKeys then NormalizePerTraceValue(d[k], traceCount) else d[k])
  }

  /** `String(btn.method||'')`. */
  function MethodName(button: map<string, JVal>): (r: string)
    ensures "method" in button && button["method"].Str? ==> r == button["method"].s
    ensures "method" !in button || button["method"].Null? ==> r == ""
  {
    if "method" in button && JsTruthy(button["method"]) then JsString(button["method"]) else ""
  }

  /** A button the pass rewrites: `args` is a non-empty array and `method`, lower-cased, is "update". */
  predicate IsUpdateButton(b: JVal) {
    && b.Obj?
    && "args" in b.fields
    && b.fields["args"].Arr?
    && |b.fields["args"].items| > 0
    && AsciiLower(MethodName(b.fields)) == "update"
  }

  function NormalizeArgs(args: seq<JVal>, traceCount: int): seq<JVal>
    requires |args| > 0
  {
    var withData := if args[0].Obj? then args[0 := Obj(NormalizeDataArgs(args[0].fields, traceCount))] else args;
    if |args| > 1 && args[1].Obj? then withData[1 := Obj(Stripped(args[1].fields))] else withData
  }

  function NormalizeButton(b: JVal, traceCount: int): (r: JVal)
    ensures !IsUpdateButton(b) ==> r == b
    ensures IsUpdateButton(b) ==>
      r.Obj? && r.fields.Keys == b.fields.Keys && r.fields["args"].Arr? && |r.fields["args"].items| == |b.fields["args"].items|
  {
    if IsUpdateButton(b) then
      Obj(b.fields["args" := Arr(NormalizeArgs(b.fields["args"].items, traceCount))])
    else b
  }

  /** A menu whose `buttons` is an array has each button normalised; anything else is left as it is. */
  function NormalizeMenu(m: JVal, traceCount: int): (r: JVal)
    ensures MenuFrame(m, r)
  {
    if m.Obj? && "buttons" in m.fields && m.fields["buttons"].Arr? then
      var bs := m.fields["buttons"].items;
      Obj(m.fields["buttons" := Arr(seq(|bs|, i requires 0 <= i < |bs| => NormalizeButton(bs[i], traceCount)))])
    else m
  }

  /** The whole pass over `layout.updatemenus`. */
  function NormalizeLayout(layout: map<string, JVal>, traceCount: int): (r: map<string, JVal>)
    ensures r.Keys == layout.Keys
    ensures forall k :: k in layout && k != "updatemenus" ==> r[k] == layout[k]
  {
    if "updatemenus" in layout && layout["updatemenus"].Arr? then
      var ms := layout["updatemenus"].items;
      layout["updatemenus" := Arr(seq(|ms|, i requires 0 <= i < |ms| => NormalizeMenu(ms[i], traceCount)))]
    else layout
  }

  // ---------------------------------------------------------------------
  // What the pass touches, and what it leaves alone
  // ---------------------------------------------------------------------

  /**
   * In the data patch of an update button only x, y, text and customdata
   * are rewritten, and only when present; exactly the fragile annotation
   * keys are deleted; every other key keeps its value.
   */
  lemma DataArgsFrame(d: map<string, JVal>, traceCount: int, k: string)
    ensures k in NormalizeDataArgs(d, traceCount) <==> k in d && !IsFragileAnnotationKey(k)
    ensures k in NormalizeDataArgs(d, traceCount) ==>
      NormalizeDataArgs(d, traceCount)[k] == if k in TraceKeys then NormalizePerTraceValue(d[k], traceCount) else d[k]
  {
  }

  /**
   * A button that is not an update button comes through unchanged. An update
   * button keeps every key but `args`, and its `args` keeps its length:
   * only `args[0]` (the data patch) and `args[1]` (the layout patch) change,
   * and `args[1]` only loses fragile keys.
   */
  lemma {:induction false} ButtonFrame(b: JVal, traceCount: int)
    ensures !IsUpdateButton(b) ==> NormalizeButton(b, traceCount) == b
    ensures IsUpdateButton(b) ==>
      var r := NormalizeButton(b, traceCount);
      var args := b.fields["args"].items;
      && r.Obj? && r.fields.Keys == b.fields.Keys
      && (forall k :: k in b.fields && k != "args" ==> r.fields[k] == b.fields[k])
      && r.fields["args"].Arr? && |r.fields["args"].items| == |args|
      && r.fields["args"].items[0] == (if args[0].Obj? then Obj(NormalizeDataArgs(args[0].fields, traceCount)) else args[0])
      && (|args| > 1 ==> r.fields["args"].items[1] == (if args[1].Obj? then Obj(Stripped(args[1].fields)) else args[1]))
      && (forall i :: 2 <= i < |args| ==> r.fields["args"].items[i] == args[i])
  {
  }

  /**
   * The pass changes no layout key but `updatemenus`, keeps the number of
   * menus and of buttons in each, changes no menu key but `buttons`, and
   * leaves every button that is not an update button exactly as it was.
   */
  lemma {:induction false} LayoutFrame(layout: map<string, JVal>, traceCount: int)
    ensures var r := NormalizeLayout(layout, traceCount);
      && r.Keys == layout.Keys
      && (forall k :: k in layout && k != "updatemenus" ==> r[k] == layout[k])
      && ("updatemenus" in layout && layout["updatemenus"].Arr? ==>
            var ms := layout["updatemenus"].items;
            r["updatemenus"].Arr? && |r["updatemenus"].items| == |ms|
            && forall i :: 0 <= i < |ms| ==> MenuFrame(ms[i], r["updatemenus"].items[i]))
      && (!("updatemenus" in layout && layout["updatemenus"].Arr?) ==> r == layout)
  {
  }

  /** How a normalised menu `r` relates to the menu `m` it came from. */
  predicate MenuFrame(m: JVal, r: JVal) {
    if m.Obj? && "buttons" in m.fields && m.fields["buttons"].Arr? then
      var bs := m.fields["buttons"].items;
      && r.Obj? && r.fields.Keys == m.fields.Keys
      && (forall k :: k in m.fields && k != "buttons" ==> r.fields[k] == m.fields[k])
      && r.fields["buttons"].Arr? && |r.fields["buttons"].items| == |bs|
      && (forall i :: 0 <= i < |bs| && !IsUpdateButton(bs[i]) ==> r.fields["buttons"].items[i] == bs[i])
    else r == m
  }

  // ---------------------------------------------------------------------
  // After the pass no fragile key is left
  // ---------------------------------------------------------------------

  predicate FreeOfFragileKeys(v: JVal) {
    v.Obj? ==> forall k :: k in v.fields ==> !IsFragileAnnotationKey(k)
  }

  /** Both patches of an update button are free of fragile keys. */
  predicate ButtonPatchesClean(b: JVal) {
    IsUpdateButton(b) ==>
      var args := b.fields["args"].items;
      FreeOfFragileKeys(args[0]) && (|args| > 1 ==> FreeOfFragileKeys(args[1]))
  }

  predicate MenusClean(layout: map<string, JVal>) {
    "updatemenus" in layout && layout["updatemenus"].Arr? ==>
      forall i :: 0 <= i < |layout["updatemenus"].items| ==>
        var m := layout["updatemenus"].items[i];
        m.Obj? && "buttons" in m.fields && m.fields["buttons"].Arr? ==>
          forall j :: 0 <= j < |m.fields["buttons"].items| ==> ButtonPatchesClean(m.fields["buttons"].items[j])
  }

  lemma {:induction false} NormalizedButtonIsClean(b: JVal, traceCount: int)
    ensures ButtonPatchesClean(NormalizeButton(b, traceCount))
  {
    var r := NormalizeButton(b, traceCount);
    if IsUpdateButton(b) {
      ButtonFrame(b, traceCount);
      assert IsUpdateButton(r) by {
        assert r.fields["method"] == b.fields["method"] by {
          assert "method" in b.fields ==> "method" in r.fields;
        }
        assert MethodName(r.fields) == MethodName(b.fields);
      }
    } else {
      assert r == b;
      if IsUpdateButton(r) { assert false; }
    }
  }

  /** For all indices i, no key `annotations[i].text` survives in either patch of any update button. */
  lemma {:induction false} NormalizedLayoutIsClean(layout: map<string, JVal>, traceCount: int)
    ensures MenusClean(NormalizeLayout(layout, traceCount))
  {
    var r := NormalizeLayout(layout, traceCount);
    if "updatemenus" in layout && layout["updatemenus"].Arr? {
      var ms := layout["updatemenus"].items;
      forall i, j | 0 <= i < |ms| && var m := r["updatemenus"].items[i];
          m.Obj? && "buttons" in m.fields && m.fields["buttons"].Arr? && 0 <= j < |m.fields["buttons"].items|
        ensures ButtonPatchesClean(r["updatemenus"].items[i].fields["buttons"].items[j])
      {
        var m := ms[i];
        assert m.Obj? && "buttons" in m.fields && m.fields["buttons"].Arr?;
        NormalizedButtonIsClean(m.fields["buttons"].items[j], traceCount);
      }
    }
  }

  // ---------------------------------------------------------------------
  // Running the pass again
  // ---------------------------------------------------------------------

  /** No update button carries a bare scalar under x, y, text or customdata. */
  predicate DataArgsFreeOfScalars(d: map<string, JVal>) {
    forall k :: k in d && k in TraceKeys ==> d[k].Arr? || d[k].Null?
  }

  predicate ButtonFreeOfScalars(b: JVal) {
    IsUpdateButton(b) && b.fields["args"].items[0].Obj? ==> DataArgsFreeOfScalars(b.fields["args"].items[0].fields)
  }

  predicate MenuFreeOfScalars(m: JVal) {
    m.Obj? && "buttons" in m.fields && m.fields["buttons"].Arr? ==>
      forall j :: 0 <= j < |m.fields["buttons"].items| ==> ButtonFreeOfScalars(m.fields["buttons"].items[j])
  }

  predicate LayoutFreeOfScalars(layout: map<string, JVal>) {
    "updatemenus" in layout && layout["updatemenus"].Arr? ==>
      forall i :: 0 <= i < |layout["updatemenus"].items| ==> MenuFreeOfScalars(layout["updatemenus"].items[i])
  }

  lemma {:induction false} StrippedIdempotent(obj: map<string, JVal>)
    ensures Stripped(Stripped(obj)) == Stripped(obj)
  {
  }

  lemma {:induction false} DataArgsIdempotent(d: map<string, JVal>, traceCount: int)
    requires traceCount >= 1 && DataArgsFreeOfScalars(d)
    ensures NormalizeDataArgs(NormalizeDataArgs(d, traceCount), traceCount) == NormalizeDataArgs(d, traceCount)
  {
    var once := NormalizeDataArgs(d, traceCount);
    var twice := NormalizeDataArgs(once, traceCount);
    forall k | k in twice
      ensures twice[k] == once[k]
    {
      DataArgsFrame(once, traceCount, k);
      DataArgsFrame(d, traceCount, k);
      if k in TraceKeys {
        NormalizeIdempotentOnArrays(d[k], traceCount);
      }
    }
    forall k
      ensures k in twice <==> k in once
    {
      DataArgsFrame(once, traceCount, k);
    }
  }

  lemma {:induction false} ButtonIdempotent(b: JVal, traceCount: int)
    requires traceCount >= 1 && ButtonFreeOfScalars(b)
    ensures NormalizeButton(NormalizeButton(b, traceCount), traceCount) == NormalizeButton(b, traceCount)
  {
    if IsUpdateButton(b) {
      var r := NormalizeButton(b, traceCount);
      ButtonFrame(b, traceCount);
      assert MethodName(r.fields) == MethodName(b.fields) by {
        assert "method" in b.fields ==> r.fields["method"] == b.fields["method"];
      }
      assert IsUpdateButton(r);
      var args := b.fields["args"].items;
      var once := NormalizeArgs(args, traceCount);
      assert r.fields["args"].items == once;
      if args[0].Obj? {
        DataArgsIdempotent(args[0].fields, traceCount);
      }
      if |args| > 1 && args[1].Obj? {
        StrippedIdempotent(args[1].fields);
      }
      assert NormalizeArgs(once, traceCount) == once;
    }
  }

  lemma {:induction false} MenuIdempotent(m: JVal, traceCount: int)
    requires traceCount >= 1 && MenuFreeOfScalars(m)
    ensures NormalizeMenu(NormalizeMenu(m, traceCount), traceCount) == NormalizeMenu(m, traceCount)
  {
    if m.Obj? && "buttons" in m.fields && m.fields["buttons"].Arr? {
      var bs := m.fields["buttons"].items;
      var once := NormalizeMenu(m, traceCount);
      var bs1 := once.fields["buttons"].items;
      forall j | 0 <= j < |bs|
        ensures NormalizeButton(bs1[j], traceCount) == bs1[j]
      {
        ButtonIdempotent(bs[j], traceCount);
      }
      assert seq(|bs1|, j requires 0 <= j < |bs1| => NormalizeButton(bs1[j], traceCount)) == bs1;
    }
  }

  /**
   * The pass is idempotent on every layout whose update buttons carry no
   * bare scalar per-trace value.
   */
  lemma {:induction false} LayoutIdempotent(layout: map<string, JVal>, traceCount: int)
    requires traceCount >= 1 && LayoutFreeOfScalars(layout)
    ensures NormalizeLayout(NormalizeLayout(layout, traceCount), traceCount) == NormalizeLayout(layout, traceCount)
  {
    if "updatemenus" in layout && layout["updatemenus"].Arr? {
      var ms := layout["updatemenus"].items;
      var once := NormalizeLayout(layout, traceCount);
      var ms1 := once["updatemenus"].items;
      forall i | 0 <= i < |ms|
        ensures NormalizeMenu(ms1[i], traceCount) == ms1[i]
      {
        MenuIdempotent(ms[i], traceCount);
      }
      assert seq(|ms1|, i requires 0 <= i < |ms1| => NormalizeMenu(ms1[i], traceCount)) == ms1;
    }
  }

  /** One update button whose text patch is the bare string "t", on a one-trace figure. */
  function ScalarTextLayout(): map<string, JVal> {
    var button := Obj(map["method" := Str("update"), "args" := Arr([Obj(map["text" := Str("t")])])]);
    map["updatemenus" := Arr([Obj(map["buttons" := Arr([button])])])]
  }

  /**
   * With a bare scalar the pass is not idempotent: a second pass turns the
   * text patch ["t"] of the first into [["t"]].
   */
  lemma ScalarLayoutNotIdempotent()
    ensures NormalizeLayout(NormalizeLayout(ScalarTextLayout(), 1), 1) != NormalizeLayout(ScalarTextLayout(), 1)
  {
    var button := Obj(map["method" := Str("update"), "args" := Arr([Obj(map["text" := Str("t")])])]);
    assert MethodName(button.fields) == "update";
    assert AsciiLower("update") == "update";
    assert IsUpdateButton(button);
    var once := NormalizeButton(button, 1);
    var d1 := NormalizeDataArgs(map["text" := Str("t")], 1);
    DataArgsFrame(map["text" := Str("t")], 1, "text");
    assert d1["text"] == Arr([Str("t")]);
    assert button.fields["args"].items == [Obj(map["text" := Str("t")])];
    assert NormalizeArgs([Obj(map["text" := Str("t")])], 1) == [Obj(d1)];
    assert once == Obj(button.fields["args" := Arr([Obj(d1)])]);
    assert IsUpdateButton(once) by {
      assert once.fields["method"] == Str("update");
    }
    var twice := NormalizeButton(once, 1);
    DataArgsFrame(d1, 1, "text");
    assert twice.fields["args"].items[0].fields["text"] == Arr([Arr([Str("t")])]);
    assert twice != once;
    var L := ScalarTextLayout();
    assert NormalizeLayout(L, 1)["updatemenus"].items[0].fields["buttons"].items[0] == once;
    assert NormalizeLayout(NormalizeLayout(L, 1), 1)["updatemenus"].items[0].fields["buttons"].items[0] == twice;
  }

  // ---------------------------------------------------------------------
  // normalizeUpdateMenus, as the page script runs it
  // ---------------------------------------------------------------------

  /** One update button's `args`, rewritten the way the script's button loop body does it. */
  method NormalizeButtonArgs(args: seq<JVal>, traceCount: int) returns (r: seq<JVal>)
    requires |args| > 0
    ensures r == NormalizeArgs(args, traceCount)
  {
    r := args;
    var dataArgs := args[0];
    if dataArgs.Obj? {
      var d0 := dataArgs.fields;
      var d := d0;
      TraceKeysDistinct();
      for j := 0 to |TraceKeys|
        invariant forall k :: k in d <==> k in d0
        invariant forall k :: k in d ==> d[k] == if k in TraceKeys[..j] then NormalizePerTraceValue(d0[k], traceCount) else d0[k]
      {
        var key := TraceKeys[j];
        assert key !in TraceKeys[..j];
        assert forall k :: k in TraceKeys[..j + 1] <==> k in TraceKeys[..j] || k == key;
        if key in d {
          d := d[key := NormalizePerTraceValue(d[key], traceCount)];
        }
      }
      assert TraceKeys[..|TraceKeys|] == TraceKeys;
      assert d == map k | k in d0 :: if k in TraceKeys then NormalizePerTraceValue(d0[k], traceCount) else d0[k];
      d := StripFragileAnnotationKeys(d);
      r := r[0 := Obj(d)];
    }
    var layoutArgs := if |args| > 1 then args[1] else Null;
    if layoutArgs.Obj? {
      var l := StripFragileAnnotationKeys(layoutArgs.fields);
      r := r[1 := Obj(l)];
    }
  }

  /** The script's loop over one menu's buttons, skipping every button that is not an update button. */
  method NormalizeMenuButtons(menu: JVal, traceCount: int) returns (r: JVal)
    ensures r == NormalizeMenu(menu, traceCount)
  {
    r := menu;
    if menu.Obj? && "buttons" in menu.fields && menu.fields["buttons"].Arr? {
      var original := menu.fields["buttons"].items;
      var buttons := original;
      var j := 0;
      while j < |buttons|
        invariant 0 <= j <= |buttons| == |original|
        invariant forall i :: 0 <= i < j ==> buttons[i] == NormalizeButton(original[i], traceCount)
        invariant forall i :: j <= i < |buttons| ==> buttons[i] == original[i]
      {
        var btn := buttons[j];
        var normalized := btn;
        if btn.Obj? && "args" in btn.fields && btn.fields["args"].Arr? && |btn.fields["args"].items| > 0 {
          if AsciiLower(MethodName(btn.fields)) == "update" {
            var args := NormalizeButtonArgs(btn.fields["args"].items, traceCount);
            normalized := Obj(btn.fields["args" := Arr(args)]);
          }
        }
        assert normalized == NormalizeButton(original[j], traceCount);
        buttons := buttons[j := normalized];
        j := j + 1;
      }
      assert buttons == seq(|original|, i requires 0 <= i < |original| => NormalizeButton(original[i], traceCount));
      r := Obj(menu.fields["buttons" := Arr(buttons)]);
    }
  }
}
