/** The JavaScript values the page reads out of a parsed model response,
    with the three conversions it applies to them: property access,
    truthiness and `Number(...)`. */
module JsValues {
  import opened Options

  /** A value as `JSON.parse` produces it. An object keeps its properties in
      enumeration order, each name once: `JSON.parse` keeps only the last
      value of a repeated name, so a `JObj` with a repeated name stands for
      no parsed object (`Get` would read its first value). */
  datatype JsValue =
    | JNull
    | JBool(b: bool)
    | JNum(n: real)
    | JStr(s: string)
    | JArr(items: seq<JsValue>)
    | JObj(props: seq<(string, JsValue)>)

  /** `obj[key]` on an object's properties: None is `undefined`. */
  function Get(props: seq<(string, JsValue)>, key: string): (r: Option<JsValue>)
    ensures r.None? <==> forall i :: 0 <= i < |props| ==> props[i].0 != key
    ensures r.Some? ==> exists i :: 0 <= i < |props| && props[i] == (key, r.value)
  {
    if props == [] then None
    else if props[0].0 == key then Some(props[0].1)
    else
      var r := Get(props[1..], key);
      assert r.Some? ==> exists i :: 0 <= i < |props[1..]| && props[1..][i] == (key, r.value);
      assert forall i :: 0 <= i < |props[1..]| ==> props[1..][i] == props[i + 1];
      r
  }

  /** `v.key` for a value that is not `null` (reading a property of `null`
      throws). Only objects carry the property names the page reads; on
      arrays, strings, numbers and booleans they are `undefined`. */
  function Property(v: JsValue, key: string): Option<JsValue>
    requires v != JNull
  {
    if v.JObj? then Get(v.props, key) else None
  }

  /** `x == null`: undefined or null, the only values `??` skips. */
  predicate Nullish(x: Option<JsValue>)
  {
    x.None? || x.value == JNull
  }

  /** JavaScript truthiness. */
  predicate Truthy(v: JsValue)
  {
    match v
    case JNull => false
    case JBool(b) => b
    case JNum(n) => n != 0.0
    case JStr(s) => s != ""
    case JArr(_) => true
    case JObj(_) => true
  }

  /** `Number(v)` when the result is finite; None when it is NaN. Strings
      and arrays are taken to be non-numeric. */
  function ToNumber(v: JsValue): Option<real>
  {
    match v
    case JNull => Some(0.0)
    case JBool(b) => Some(if b then 1.0 else 0.0)
    case JNum(n) => Some(n)
    case _ => None
  }
}

/** What the page makes of a model response: `extractPrediction`, the
    percentage scaling of `formatConfidence` / `formatConfidenceValue`, and the
    filter-and-sort pipeline of `renderAllConfidences`. */
module Prediction {
  import opened Options
  import opened Text
  import opened JsValues

  /** The label fields, in the order `extractPrediction` tries them. */
  const LabelKeys: seq<string> := ["predicted_label", "label", "prediction", "class", "result"]

  /** The confidence fields, in the order `extractPrediction` tries them. */
  const ConfidenceKeys: seq<string> := ["confidence", "predicted_confidence", "score", "probability"]

  /** `a ?? b`. */
  function Coalesce(a: Option<JsValue>, b: Option<JsValue>): Option<JsValue>
  {
    if Nullish(a) then b else a
  }

  /** `props[keys[0]] ?? props[keys[1]] ?? ... ?? tail`. */
  function Chain(props: seq<(string, JsValue)>, keys: seq<string>, tail: Option<JsValue>): Option<JsValue>
  {
    if keys == [] then tail else Coalesce(Get(props, keys[0]), Chain(props, keys[1..], tail))
  }

  /** The value of the first key that is neither undefined nor null: the
      reading of a `??` chain as a priority list. */
  function FirstDefined(props: seq<(string, JsValue)>, keys: seq<string>): Option<JsValue>
  {
    if keys == [] then None
    else Coalesce(Get(props, keys[0]), FirstDefined(props, keys[1..]))
  }

  /** FirstDefined finds a non-null value exactly when one of the keys has
      one, and then it is the value of the earliest such key. */
  lemma {:induction false} FirstDefinedSpec(props: seq<(string, JsValue)>, keys: seq<string>)
    ensures var r := FirstDefined(props, keys);
      && (r.Some? ==> r.value != JNull)
      && (r.None? <==> forall i :: 0 <= i < |keys| ==> Nullish(Get(props, keys[i])))
      && (r.Some? ==> exists i :: 0 <= i < |keys| && Get(props, keys[i]) == r
                                && forall j :: 0 <= j < i ==> Nullish(Get(props, keys[j])))
  {
    if keys != [] {
      FirstDefinedSpec(props, keys[1..]);
      var r := FirstDefined(props, keys);
      assert forall i :: 0 <= i < |keys[1..]| ==> keys[1..][i] == keys[i + 1];
      if Nullish(Get(props, keys[0])) && r.Some? {
        var i :| 0 <= i < |keys[1..]| && Get(props, keys[1..][i]) == r
                 && forall j :: 0 <= j < i ==> Nullish(Get(props, keys[1..][j]));
        assert Get(props, keys[i + 1]) == r;
        assert forall j :: 0 <= j < i + 1 ==> Nullish(Get(props, keys[j])) by {
          forall j | 0 <= j < i + 1 ensures Nullish(Get(props, keys[j])) {
            if j > 0 { assert keys[j] == keys[1..][j - 1]; }
          }
        }
      }
    }
  }

  /** A `??` chain yields the first defined key's value, or its tail when
      every key is null or undefined. */
  lemma {:induction false} ChainIsFirstDefined(props: seq<(string, JsValue)>, keys: seq<string>, tail: Option<JsValue>)
    ensures Chain(props, keys, tail) ==
              if FirstDefined(props, keys).Some? then FirstDefined(props, keys) else tail
  {
    if keys != [] {
      ChainIsFirstDefined(props, keys[1..], tail);
      FirstDefinedSpec(props, keys[1..]);
    }
  }

  /** `Math.max(...xs)` when the result is finite: None when `xs` is empty
      (-Infinity) or one element is not a number (NaN). */
  function MaxOf(xs: seq<JsValue>): (r: Option<real>)
    ensures r.Some? <==> |xs| > 0 && forall i :: 0 <= i < |xs| ==> ToNumber(xs[i]).Some?
    ensures r.Some? ==> forall i :: 0 <= i < |xs| ==> ToNumber(xs[i]).value <= r.value
    ensures r.Some? ==> exists i :: 0 <= i < |xs| && ToNumber(xs[i]) == r
  {
    if |xs| == 0 then None
    else
      var x := ToNumber(xs[0]);
      if |xs| == 1 then x
      else
        var rest := MaxOf(xs[1..]);
        assert forall i :: 0 <= i < |xs[1..]| ==> xs[1..][i] == xs[i + 1];
        if x.None? || rest.None? then
          assert x.None? ==> ToNumber(xs[0]).None?;
          assert rest.None? ==> exists i :: 0 <= i < |xs[1..]| && ToNumber(xs[1..][i]).None?;
          None
        else
          assert exists i :: 0 <= i < |xs[1..]| && ToNumber(xs[1..][i]) == rest;
          Some(if x.value >= rest.value then x.value else rest.value)
  }

  /** The confidence `extractPrediction` reports: a field's value, the
      maximum of a `scores` array, or "--". */
  datatype Confidence = NoConfidence | FromField(v: JsValue) | MaxScore(max: Option<real>)

  /** A label of None is shown as "--". */
  datatype Prediction = Prediction(labelValue: Option<JsValue>, confidence: Confidence)

  /** The last alternative of the label chain: a present `healthy` field
      (even `null`) gives "Healthy" or "Unhealthy" by its truthiness. */
  function HealthyLabel(props: seq<(string, JsValue)>): Option<JsValue>
  {
    var h := Get(props, "healthy");
    if h.Some? then Some(JStr(if Truthy(h.value) then "Healthy" else "Unhealthy")) else Some(JNull)
  }

  /** `extractPrediction(payload)`: its two `??` chains over the keys in the
      order written, the label chain ending in the `healthy` test. Arrays
      pass the object test but carry none of the names, so they give the
      same "--" pair as the early return. */
  function ExtractPrediction(payload: JsValue): (r: Prediction)
    ensures !payload.JObj? ==> r == Prediction(None, NoConfidence)
    ensures r.labelValue != Some(JNull)
    ensures r.confidence.FromField? ==> r.confidence.v != JNull
  {
    if !payload.JObj? then Prediction(None, NoConfidence)
    else
      var p := payload.props;
      var labelled := Chain(p, LabelKeys, HealthyLabel(p));
      var field := Chain(p, ConfidenceKeys, None);
      var scores := Get(p, "scores");
      Prediction(
        if Nullish(labelled) then None else labelled,
        if !Nullish(field) then FromField(field.value)
        else if scores.Some? && scores.value.JArr? then MaxScore(MaxOf(scores.value.items))
        else NoConfidence)
  }

  /** The label is the first of the label fields that is not null or
      undefined (so `0`, `false` and "" are kept); failing all five, a present
      `healthy` field decides; failing that, "--". */
  lemma LabelPriority(props: seq<(string, JsValue)>)
    ensures var first := FirstDefined(props, LabelKeys);
            var h := Get(props, "healthy");
            ExtractPrediction(JObj(props)).labelValue ==
              if first.Some? then first
              else if h.Some? then Some(JStr(if Truthy(h.value) then "Healthy" else "Unhealthy"))
              else None
  {
    ChainIsFirstDefined(props, LabelKeys, HealthyLabel(props));
    FirstDefinedSpec(props, LabelKeys);
  }

  /** The confidence is the first of the confidence fields that is not null
      or undefined; failing those, the maximum of a `scores` array; failing
      that, "--". */
  lemma ConfidencePriority(props: seq<(string, JsValue)>)
    ensures var first := FirstDefined(props, ConfidenceKeys);
            var scores := Get(props, "scores");
            ExtractPrediction(JObj(props)).confidence ==
              if first.Some? then FromField(first.value)
              else if scores.Some? && scores.value.JArr? then MaxScore(MaxOf(scores.value.items))
              else NoConfidence
  {
    ChainIsFirstDefined(props, ConfidenceKeys, None);
    FirstDefinedSpec(props, ConfidenceKeys);
  }

  /** `num <= 1 ? num * 100 : num`: a fraction becomes a percentage; a number
      above 1 is taken to be a percentage already. */
  function Scale(num: real): (pct: real)
    ensures 0.0 <= num <= 1.0 ==> 0.0 <= pct <= 100.0
    ensures num > 1.0 ==> pct == num
    ensures num <= 1.0 ==> pct * 0.01 == num
  {
    if num <= 1.0 then num * 100.0 else num
  }

  /** The same confidence given as a fraction or as a percentage shows the
      same percentage, as long as the fraction is above 1%. */
  lemma FractionAndPercentAgree(fraction: real)
    requires 0.01 < fraction <= 1.0
    ensures Scale(fraction) == Scale(fraction * 100.0) == fraction * 100.0
  {
  }

  /** `formatConfidenceValue(v)` before rounding: None is "--" (null, or not a
      finite number). */
  function PercentOf(v: JsValue): (r: Option<real>)
    ensures r.Some? <==> v != JNull && ToNumber(v).Some?
    ensures r.Some? ==> r.value == Scale(ToNumber(v).value)
  {
    if v == JNull then None
    else match ToNumber(v)
      case Some(n) => Some(Scale(n))
      case None => None
  }

  /** `formatConfidence(confidence)` before rounding, for what
      `extractPrediction` returned. */
  function ConfidencePercent(c: Confidence): (r: Option<real>)
    ensures r.Some? <==> (c.FromField? && c.v != JNull && ToNumber(c.v).Some?) || (c.MaxScore? && c.max.Some?)
    ensures r.Some? ==> r.value == Scale(if c.FromField? then ToNumber(c.v).value else c.max.value)
  {
    match c
    case NoConfidence => None
    case FromField(v) => PercentOf(v)
    case MaxScore(m) => if m.Some? then Some(Scale(m.value)) else None
  }

  /** 0.873 and 87.3 both show as 87.3%. */
  lemma ConfidenceExample()
    ensures ConfidencePercent(FromField(JNum(0.873))) == Some(87.3)
    ensures ConfidencePercent(FromField(JNum(87.3))) == Some(87.3)
  {
  }

  /** An entry of the confidence map whose value is a finite number. */
  datatype Scored = Scored(name: string, value: JsValue, score: real)

  /** `Object.entries(v)` for an object or an array. */
  function Entries(v: JsValue): seq<(string, JsValue)>
  {
    match v
    case JObj(props) => props
    case JArr(items) => seq(|items|, i requires 0 <= i < |items| => (NatToString(i), items[i]))
    case _ => []
  }

  /** `.filter(([, value]) => Number.isFinite(Number(value)))`, keeping the
      numeric value of each entry. */
  function FiniteEntries(es: seq<(string, JsValue)>): (r: seq<Scored>)
    ensures |r| <= |es|
    ensures forall i :: 0 <= i < |r| ==> ToNumber(r[i].value) == Some(r[i].score)
    ensures forall i :: 0 <= i < |es| && ToNumber(es[i].1).Some? ==>
              Scored(es[i].0, es[i].1, ToNumber(es[i].1).value) in r
    ensures forall e :: e in r ==> (e.name, e.value) in es
  {
    if es == [] then []
    else
      var rest := FiniteEntries(es[1..]);
      assert forall i :: 0 <= i < |es[1..]| ==> es[1..][i] == es[i + 1];
      match ToNumber(es[0].1)
      case Some(n) => [Scored(es[0].0, es[0].1, n)] + rest
      case None => rest
  }

  /** The filter keeps the entries in their original order: filtering a
      concatenation is concatenating the filtered parts. */
  lemma {:induction false} FiniteEntriesAppend(a: seq<(string, JsValue)>, b: seq<(string, JsValue)>)
    ensures FiniteEntries(a + b) == FiniteEntries(a) + FiniteEntries(b)
  {
    if a != [] {
      assert (a + b)[0] == a[0] && (a + b)[1..] == a[1..] + b;
      FiniteEntriesAppend(a[1..], b);
    } else {
      assert a + b == b;
    }
  }

  /** Sorted by score, highest first. */
  ghost predicate Descending(s: seq<Scored>)
  {
    forall i :: 0 < i < |s| ==> s[i - 1].score >= s[i].score
  }

  /** The entries of `s` whose score is `k`, in their order in `s`. */
  function WithScore(s: seq<Scored>, k: real): seq<Scored>
  {
    if s == [] then [] else (if s[0].score == k then [s[0]] else []) + WithScore(s[1..], k)
  }

  /** Places `x` in front of the first entry scoring no more than it. */
  function Insert(x: Scored, t: seq<Scored>): (r: seq<Scored>)
    ensures multiset(r) == multiset(t) + multiset{x}
    ensures |r| == |t| + 1 && (r[0] == x || (t != [] && r[0] == t[0]))
  {
    if t == [] || t[0].score <= x.score then [x] + t
    else
      assert t == [t[0]] + t[1..];
      [t[0]] + Insert(x, t[1..])
  }

  lemma {:induction false} InsertDescending(x: Scored, t: seq<Scored>)
    requires Descending(t)
    ensures Descending(Insert(x, t))
  {
    if !(t == [] || t[0].score <= x.score) {
      var rest := t[1..];
      InsertDescending(x, rest);
      var r := Insert(x, rest);
      var full := [t[0]] + r;
      assert full == Insert(x, t);
      forall i | 0 < i < |full| ensures full[i - 1].score >= full[i].score {
        if i > 1 { assert full[i - 1] == r[i - 2] && full[i] == r[i - 1]; }
      }
    }
  }

  /** `.sort((a, b) => Number(b[1]) - Number(a[1]))`: Array.prototype.sort is
      stable, so this is a stable sort by descending score. */
  function SortDescending(s: seq<Scored>): (r: seq<Scored>)
    ensures Descending(r)
    ensures multiset(r) == multiset(s)
  {
    if s == [] then []
    else
      assert s == [s[0]] + s[1..];
      var sorted := SortDescending(s[1..]);
      InsertDescending(s[0], sorted);
      Insert(s[0], sorted)
  }

  lemma {:induction false} InsertStable(x: Scored, t: seq<Scored>, k: real)
    ensures WithScore(Insert(x, t), k) == (if x.score == k then [x] else []) + WithScore(t, k)
  {
    if t == [] || t[0].score <= x.score {
      assert ([x] + t)[1..] == t;
    } else {
      InsertStable(x, t[1..], k);
      assert ([t[0]] + Insert(x, t[1..]))[1..] == Insert(x, t[1..]);
    }
  }

  /** Entries with equal scores keep their original relative order. */
  lemma {:induction false} SortStable(s: seq<Scored>, k: real)
    ensures WithScore(SortDescending(s), k) == WithScore(s, k)
  {
    if s != [] {
      SortStable(s[1..], k);
      InsertStable(s[0], SortDescending(s[1..]), k);
    }
  }

  /** The rendered list: None in a row is a value shown as "--". */
  datatype ConfidenceList = NoList | Ranked(items: seq<(string, Option<real>)>)

  /** `renderAllConfidences(confidences)`: "--" unless `confidences` is an
      object or array with at least one finite entry; otherwise its finite
      entries, highest first, each with its percentage. */
  function RenderAllConfidences(confidences: Option<JsValue>): (r: ConfidenceList)
    ensures r.Ranked? <==>
      && confidences.Some? && (confidences.value.JObj? || confidences.value.JArr?)
      && exists i :: 0 <= i < |Entries(confidences.value)| && ToNumber(Entries(confidences.value)[i].1).Some?
  {
    if confidences.None? || !(confidences.value.JObj? || confidences.value.JArr?) then NoList
    else
      var es := Entries(confidences.value);
      var finite := FiniteEntries(es);
      var ranked := SortDescending(finite);
      assert |ranked| == |finite| by {
        assert |multiset(ranked)| == |multiset(finite)|;
      }
      if ranked == [] then
        assert finite == [];
        NoList
      else
        assert ranked[0] in multiset(finite);
        assert (ranked[0].name, ranked[0].value) in es;
        Ranked(Display(ranked))
  }

  /** The rows shown are the finite entries ranked by `SortDescending`
      (highest score first, ties in object order), each with the percentage
      `formatConfidenceValue` shows for its value. */
  lemma RenderedRows(confidences: JsValue)
    requires confidences.JObj? || confidences.JArr?
    ensures var ranked := SortDescending(FiniteEntries(Entries(confidences)));
      var r := RenderAllConfidences(Some(confidences));
      && (r.Ranked? <==> ranked != [])
      && (r.Ranked? ==>
            && |r.items| == |ranked|
            && forall i :: 0 <= i < |ranked| ==> r.items[i] == (ranked[i].name, PercentOf(ranked[i].value)))
  {
  }

  /** Each ranked entry with the percentage `formatConfidenceValue` shows. */
  function Display(ranked: seq<Scored>): (rows: seq<(string, Option<real>)>)
    ensures |rows| == |ranked|
    ensures forall i :: 0 <= i < |ranked| ==> rows[i] == (ranked[i].name, PercentOf(ranked[i].value))
  {
    if ranked == [] then [] else [(ranked[0].name, PercentOf(ranked[0].value))] + Display(ranked[1..])
  }

  /** The finite entries of {"rust": 0.2, "blight": 0.7, "healthy": 0.1}, in
      insertion order. */
  lemma ExampleEntries(es: seq<(string, JsValue)>)
    requires es == [("rust", JNum(0.2)), ("blight", JNum(0.7)), ("healthy", JNum(0.1))]
    ensures FiniteEntries(es)
         == [Scored("rust", JNum(0.2), 0.2), Scored("blight", JNum(0.7), 0.7), Scored("healthy", JNum(0.1), 0.1)]
  {
    assert es[1..] == [("blight", JNum(0.7)), ("healthy", JNum(0.1))];
    assert es[1..][1..] == [("healthy", JNum(0.1))];
    assert FiniteEntries(es[1..][1..]) == [Scored("healthy", JNum(0.1), 0.1)];
    assert FiniteEntries(es[1..]) == [Scored("blight", JNum(0.7), 0.7), Scored("healthy", JNum(0.1), 0.1)];
  }

  /** Sorting those entries puts blight first, then rust, then healthy. */
  lemma ExampleSorted(rust: Scored, blight: Scored, healthy: Scored)
    requires rust == Scored("rust", JNum(0.2), 0.2)
    requires blight == Scored("blight", JNum(0.7), 0.7)
    requires healthy == Scored("healthy", JNum(0.1), 0.1)
    ensures SortDescending([rust, blight, healthy]) == [blight, rust, healthy]
  {
    assert [rust, blight, healthy][1..] == [blight, healthy];
    assert [blight, healthy][1..] == [healthy];
    assert SortDescending([healthy]) == [healthy];
    assert SortDescending([blight, healthy]) == [blight, healthy];
    assert Insert(rust, [healthy]) == [rust, healthy];
    assert Insert(rust, [blight, healthy]) == [blight, rust, healthy];
    assert SortDescending([rust, blight, healthy]) == Insert(rust, SortDescending([blight, healthy]));
  }

  /** The ranked entries shown as percentages. */
  lemma ExampleDisplay(rust: Scored, blight: Scored, healthy: Scored)
    requires rust == Scored("rust", JNum(0.2), 0.2)
    requires blight == Scored("blight", JNum(0.7), 0.7)
    requires healthy == Scored("healthy", JNum(0.1), 0.1)
    ensures Display([blight, rust, healthy]) == [("blight", Some(70.0)), ("rust", Some(20.0)), ("healthy", Some(10.0))]
  {
    assert [blight, rust, healthy][1..] == [rust, healthy];
    assert [rust, healthy][1..] == [healthy];
    assert Display([healthy]) == [("healthy", Some(10.0))];
    assert Display([rust, healthy]) == [("rust", Some(20.0)), ("healthy", Some(10.0))];
  }

  /** {"rust": 0.2, "blight": 0.7, "healthy": 0.1} ranks blight (70%), rust
      (20%), healthy (10%). */
  lemma RankedExample(confidences: JsValue)
    requires confidences == JObj([("rust", JNum(0.2)), ("blight", JNum(0.7)), ("healthy", JNum(0.1))])
    ensures RenderAllConfidences(Some(confidences))
         == Ranked([("blight", Some(70.0)), ("rust", Some(20.0)), ("healthy", Some(10.0))])
  {
    var rust := Scored("rust", JNum(0.2), 0.2);
    var blight := Scored("blight", JNum(0.7), 0.7);
    var healthy := Scored("healthy", JNum(0.1), 0.1);
    ExampleEntries(confidences.props);
    ExampleSorted(rust, blight, healthy);
    ExampleDisplay(rust, blight, healthy);
    var ranked := SortDescending(FiniteEntries(Entries(confidences)));
    assert Entries(confidences) == confidences.props;
    assert ranked == [blight, rust, healthy];
  }
}
