/** The parameter decomposer of CMR/Query.py: a filter map becomes an ordered
    list of subquery parameter lists, one per combination of the values of
    the filters that take part in the cartesian expansion, each followed by
    the same flattened tuple of the filters that do not. */
module Decompose {
  import opened Wrappers
  import Text

  /** One element of a filter's list value, already rendered as text (what
      `f'{t}'` prints): a plain value, or a nested list such as a `[lo, hi]`
      range, whose items are sent comma-joined. */
  datatype Element = Atom(text: string) | Nested(items: seq<string>)

  /** A filter value: a scalar, or a list of elements. */
  datatype ParamValue = Scalar(text: string) | ListOf(elements: seq<Element>)

  /** One entry of the filter map; the map itself is the sequence of its
      entries in the dictionary's iteration order. */
  datatype Filter = Filter(name: string, value: ParamValue)

  /** A `str.format` template taking one argument, given as the literal
      chunks between its placeholders (`"{0}"` is `["", ""]`). */
  datatype Template = Template(chunks: seq<string>)

  /** What the field-mapping collaborator `input_map()` gives for a filter
      name: the backend field and the value-format template. */
  datatype Mapping = Mapping(field: string, template: Template)

  type InputMap = map<string, Mapping>

  /** A one-entry dictionary `{backend_field: formatted_value}`. */
  datatype Pair = Pair(field: string, value: string)

  /** The `KeyError` raised by `input_map()[name]` for an unmapped filter. */
  datatype DecomposeError = Unmapped(name: string)

  /** The filters that are sent as repeated fields instead of being expanded. */
  const ListParamNames: seq<string> := ["granule_list", "product_list", "platform"]

  predicate IsListParam(name: string) {
    name in ListParamNames
  }

  predicate AllMapped(params: seq<Filter>, inputMap: InputMap) {
    forall f :: f in params ==> f.name in inputMap
  }

  /** `name` is the first name of `params`, in iteration order, that the
      input map lacks. */
  ghost predicate FirstUnmapped(params: seq<Filter>, inputMap: InputMap, name: string) {
    exists k :: 0 <= k < |params| && params[k].name == name && name !in inputMap && AllMapped(params[..k], inputMap)
  }

  /** The first unmapped filter stays the first when more filters follow. */
  lemma FirstUnmappedExtend(init: seq<Filter>, last: Filter, inputMap: InputMap, name: string)
    requires FirstUnmapped(init, inputMap, name)
    ensures FirstUnmapped(init + [last], inputMap, name)
  {
    var k :| 0 <= k < |init| && init[k].name == name && name !in inputMap && AllMapped(init[..k], inputMap);
    assert (init + [last])[..k] == init[..k];
  }

  /** An unmapped filter after mapped ones is the first unmapped one. */
  lemma FirstUnmappedLast(init: seq<Filter>, last: Filter, inputMap: InputMap)
    requires AllMapped(init, inputMap) && last.name !in inputMap
    ensures FirstUnmapped(init + [last], inputMap, last.name)
  {
    assert (init + [last])[..|init|] == init;
  }

  /** `template.format(v)`: `v` is put in every placeholder. */
  function Format(template: Template, v: string): string {
    Fill(template.chunks, v)
  }

  function Fill(chunks: seq<string>, v: string): string
    decreases |chunks|
  {
    if |chunks| == 0 then ""
    else if |chunks| == 1 then chunks[0]
    else chunks[0] + v + Fill(chunks[1..], v)
  }

  /** The text that is formatted for one element: a nested list is
      comma-joined. */
  function Render(e: Element): string {
    match e
    case Atom(t) => t
    case Nested(items) => Text.Join(items, ',')
  }

  /** A scalar is treated as a one-element list. */
  function Elements(v: ParamValue): seq<Element> {
    match v
    case Scalar(t) => [Atom(t)]
    case ListOf(es) => es
  }

  /** The number of pairs a filter value expands into. */
  function Cardinality(v: ParamValue): nat {
    |Elements(v)|
  }

  /** The loop of `translate_param`: one pair per element, appended in order. */
  function TranslateElements(m: Mapping, es: seq<Element>): (pairs: seq<Pair>)
    ensures |pairs| == |es|
    ensures forall i :: 0 <= i < |es| ==> pairs[i] == Pair(m.field, Format(m.template, Render(es[i])))
    decreases |es|
  {
    if es == [] then []
    else TranslateElements(m, es[..|es| - 1]) + [Pair(m.field, Format(m.template, Render(es[|es| - 1])))]
  }

  /** `translate_param(name, value)`. */
  function TranslateParam(name: string, value: ParamValue, inputMap: InputMap): (r: Result<seq<Pair>, DecomposeError>)
    ensures r.Success? <==> name in inputMap
    ensures r.Failure? ==> r.error == Unmapped(name)
    ensures r.Success? ==> |r.value| == Cardinality(value)
    ensures r.Success? && value.Scalar? ==>
      r.value == [Pair(inputMap[name].field, Format(inputMap[name].template, value.text))]
    ensures r.Success? && value.ListOf? ==>
      forall i :: 0 <= i < |value.elements| ==>
        r.value[i].field == inputMap[name].field &&
        (value.elements[i].Atom? ==> r.value[i].value == Format(inputMap[name].template, value.elements[i].text)) &&
        (value.elements[i].Nested? ==> r.value[i].value == Format(inputMap[name].template, Text.Join(value.elements[i].items, ',')))
  {
    if name !in inputMap then Failure(Unmapped(name))
    else Success(TranslateElements(inputMap[name], Elements(value)))
  }

  /** `format_query_params(params)`: the pair list of every filter, in order;
      the first unmapped filter aborts it. */
  function FormatQueryParams(params: seq<Filter>, inputMap: InputMap): (r: Result<seq<seq<Pair>>, DecomposeError>)
    ensures r.Success? <==> AllMapped(params, inputMap)
    ensures r.Success? ==> |r.value| == |params|
    ensures r.Success? ==> forall i :: 0 <= i < |params| ==>
      r.value[i] == TranslateParam(params[i].name, params[i].value, inputMap).value
    ensures r.Failure? ==> FirstUnmapped(params, inputMap, r.error.name)
    decreases |params|
  {
    if params == [] then Success([])
    else
      var init := params[..|params| - 1];
      var last := params[|params| - 1];
      assert params == init + [last];
      assert init[..|init|] == init;
      match FormatQueryParams(init, inputMap)
      case Failure(e) =>
        FirstUnmappedExtend(init, last, inputMap, e.name);
        Failure(e)
      case Success(init') =>
        match TranslateParam(last.name, last.value, inputMap)
        case Failure(e) =>
          FirstUnmappedLast(init, last, inputMap);
          Failure(e)
        case Success(pairs) => Success(init' + [pairs])
  }

  /** The filters whose membership in the list-parameter names is `listed`,
      in their original order. */
  function Select(params: seq<Filter>, listed: bool): seq<Filter>
    decreases |params|
  {
    if params == [] then []
    else if IsListParam(params[0].name) == listed then [params[0]] + Select(params[1..], listed)
    else Select(params[1..], listed)
  }

  /** The selected filters are exactly those whose list-name membership is
      the one asked for. */
  lemma {:induction false} SelectMembers(params: seq<Filter>, listed: bool)
    ensures forall f :: f in Select(params, listed) <==> f in params && IsListParam(f.name) == listed
    decreases |params|
  {
    if params != [] {
      SelectMembers(params[1..], listed);
      assert params == [params[0]] + params[1..];
    }
  }

  /** Selecting from `[f] + rest` decides `f`, then selects from `rest`. */
  lemma SelectCons(f: Filter, rest: seq<Filter>, listed: bool)
    ensures Select([f] + rest, listed) == (if IsListParam(f.name) == listed then [f] else []) + Select(rest, listed)
  {
    assert ([f] + rest)[0] == f;
    assert ([f] + rest)[1..] == rest;
  }

  /** Selecting from a concatenation selects from each part in turn, so the
      selected filters keep their iteration order. */
  lemma {:induction false} SelectAppend(a: seq<Filter>, b: seq<Filter>, listed: bool)
    ensures Select(a + b, listed) == Select(a, listed) + Select(b, listed)
    decreases |a|
  {
    if a == [] {
      assert a + b == b;
    } else {
      assert a == [a[0]] + a[1..];
      assert a + b == [a[0]] + (a[1..] + b);
      SelectCons(a[0], a[1..], listed);
      SelectCons(a[0], a[1..] + b, listed);
      SelectAppend(a[1..], b, listed);
      var head, x, y := if IsListParam(a[0].name) == listed then [a[0]] else [], Select(a[1..], listed), Select(b, listed);
      assert head + (x + y) == (head + x) + y;
    }
  }

  /** One filter is kept exactly when its membership is the one asked for. */
  lemma SelectOne(f: Filter, listed: bool)
    ensures Select([f], listed) == if IsListParam(f.name) == listed then [f] else []
  {
    assert [f][1..] == [];
  }

  /** `subquery_params`: the filters that take part in the cartesian product. */
  function SubqueryParams(params: seq<Filter>): seq<Filter> {
    Select(params, false)
  }

  /** `list_params`: the filters that dodge the subquery system. */
  function ListParams(params: seq<Filter>): seq<Filter> {
    Select(params, true)
  }

  /** The two kinds of filters split the filter map without loss or overlap. */
  lemma {:induction false} Partition(params: seq<Filter>)
    ensures multiset(SubqueryParams(params)) + multiset(ListParams(params)) == multiset(params)
    ensures forall f :: f in ListParams(params) ==> IsListParam(f.name) && f !in SubqueryParams(params)
    ensures forall f :: f in SubqueryParams(params) ==> !IsListParam(f.name) && f !in ListParams(params)
    decreases |params|
  {
    SelectMembers(params, true);
    SelectMembers(params, false);
    if params != [] {
      Partition(params[1..]);
      assert params == [params[0]] + params[1..];
    }
  }

  /** Every filter is mapped exactly when the filters of both kinds are. */
  lemma MappedParts(params: seq<Filter>, inputMap: InputMap)
    ensures AllMapped(params, inputMap) <==>
      AllMapped(SubqueryParams(params), inputMap) && AllMapped(ListParams(params), inputMap)
  {
    SelectMembers(params, true);
    SelectMembers(params, false);
  }

  /** The product of the lengths of some lists. */
  function CardProduct<T>(ls: seq<seq<T>>): nat
    decreases |ls|
  {
    if ls == [] then 1 else |ls[0]| * CardProduct(ls[1..])
  }

  /** The product of the cardinalities of some filters' values. */
  function CardinalityProduct(params: seq<Filter>): nat
    decreases |params|
  {
    if params == [] then 1 else Cardinality(params[0].value) * CardinalityProduct(params[1..])
  }

  /** `c` takes one element from each of `ls`, in order. */
  ghost predicate IsCombination<T>(ls: seq<seq<T>>, c: seq<T>) {
    |c| == |ls| && forall j :: 0 <= j < |ls| ==> c[j] in ls[j]
  }

  /** Every combination `[x] + t`, `x` from `xs` in order, `t` from `ts` in order. */
  function Prefixing<T>(xs: seq<T>, ts: seq<seq<T>>): (r: seq<seq<T>>)
    ensures |r| == |xs| * |ts|
    ensures forall p :: 0 <= p < |r| ==> |r[p]| >= 1 && r[p][0] in xs && r[p][1..] in ts
    decreases |xs|
  {
    if xs == [] then []
    else
      var block := seq(|ts|, k requires 0 <= k < |ts| => [xs[0]] + ts[k]);
      assert forall k :: 0 <= k < |ts| ==> block[k][1..] == ts[k];
      var r := block + Prefixing(xs[1..], ts);
      assert |xs| * |ts| == |ts| + (|xs| - 1) * |ts|;
      r
  }

  /** `itertools.product(*ls)`: the first list varies slowest. */
  function Product<T>(ls: seq<seq<T>>): (r: seq<seq<T>>)
    ensures |r| == CardProduct(ls)
    ensures forall p :: 0 <= p < |r| ==> IsCombination(ls, r[p])
    decreases |ls|
  {
    if ls == [] then [[]]
    else
      var rest := Product(ls[1..]);
      var r := Prefixing(ls[0], rest);
      assert forall p :: 0 <= p < |r| ==> IsCombination(ls, r[p]) by {
        forall p | 0 <= p < |r| ensures IsCombination(ls, r[p]) {
          var t := r[p][1..];
          var k :| 0 <= k < |rest| && rest[k] == t;
          assert IsCombination(ls[1..], rest[k]);
          assert r[p] == [r[p][0]] + t;
        }
      }
      r
  }

  lemma MulStep(i: nat, n: nat)
    requires i > 0
    ensures i * n == n + (i - 1) * n
  {
  }

  lemma MulLess(i: nat, m: nat, k: nat, n: nat)
    requires i < m && k < n
    ensures i * n + k < m * n
  {
    assert i * n + k < (i + 1) * n;
    assert (i + 1) * n <= m * n;
  }

  /** The block structure of `Prefixing`. */
  lemma {:induction false} PrefixingAt<T>(xs: seq<T>, ts: seq<seq<T>>, i: nat, k: nat)
    requires i < |xs| && k < |ts|
    ensures i * |ts| + k < |Prefixing(xs, ts)|
    ensures Prefixing(xs, ts)[i * |ts| + k] == [xs[i]] + ts[k]
    decreases i
  {
    var block := seq(|ts|, k requires 0 <= k < |ts| => [xs[0]] + ts[k]);
    assert Prefixing(xs, ts) == block + Prefixing(xs[1..], ts);
    MulLess(i, |xs|, k, |ts|);
    if i > 0 {
      PrefixingAt(xs[1..], ts, i - 1, k);
      MulStep(i, |ts|);
    }
  }

  /** A choice of one index into each list. */
  predicate IsChoice<T>(ls: seq<seq<T>>, idx: seq<nat>) {
    |idx| == |ls| && forall j :: 0 <= j < |ls| ==> idx[j] < |ls[j]|
  }

  /** The elements a choice picks. */
  function Pick<T>(ls: seq<seq<T>>, idx: seq<nat>): (c: seq<T>)
    requires IsChoice(ls, idx)
  {
    seq(|ls|, j requires 0 <= j < |ls| => ls[j][idx[j]])
  }

  /** The position of a choice in mixed radix, the first list most significant. */
  function Rank<T>(ls: seq<seq<T>>, idx: seq<nat>): nat
    requires IsChoice(ls, idx)
    decreases |ls|
  {
    if ls == [] then 0
    else
      assert IsChoice(ls[1..], idx[1..]);
      idx[0] * CardProduct(ls[1..]) + Rank(ls[1..], idx[1..])
  }

  /** Lexicographic order on choices. */
  predicate LexLess(a: seq<nat>, b: seq<nat>)
    decreases |a|
  {
    |a| > 0 && |b| > 0 && (a[0] < b[0] || (a[0] == b[0] && LexLess(a[1..], b[1..])))
  }

  /** One step of `Rank`, `Product` and `Pick` over the first list. */
  lemma ChoiceStep<T>(ls: seq<seq<T>>, idx: seq<nat>)
    requires ls != [] && IsChoice(ls, idx)
    ensures IsChoice(ls[1..], idx[1..])
    ensures Rank(ls, idx) == idx[0] * |Product(ls[1..])| + Rank(ls[1..], idx[1..])
    ensures Product(ls) == Prefixing(ls[0], Product(ls[1..]))
    ensures Pick(ls, idx) == [ls[0][idx[0]]] + Pick(ls[1..], idx[1..])
  {
    assert IsChoice(ls[1..], idx[1..]);
  }

  /** The product holds each choice's elements at the choice's rank. */
  lemma {:induction false} ProductAt<T>(ls: seq<seq<T>>, idx: seq<nat>)
    requires IsChoice(ls, idx)
    ensures Rank(ls, idx) < |Product(ls)|
    ensures Product(ls)[Rank(ls, idx)] == Pick(ls, idx)
    decreases |ls|
  {
    if ls != [] {
      ChoiceStep(ls, idx);
      ProductAt(ls[1..], idx[1..]);
      PrefixingAt(ls[0], Product(ls[1..]), idx[0], Rank(ls[1..], idx[1..]));
    }
  }

  /** Product order is the lexicographic order of choices: earlier filters
      vary slowest. */
  lemma {:induction false} RankLexOrder<T>(ls: seq<seq<T>>, a: seq<nat>, b: seq<nat>)
    requires IsChoice(ls, a) && IsChoice(ls, b)
    requires LexLess(a, b)
    ensures Rank(ls, a) < Rank(ls, b)
    decreases |ls|
  {
    var rest := ls[1..];
    assert IsChoice(rest, a[1..]) && IsChoice(rest, b[1..]);
    var c := CardProduct(rest);
    if a[0] < b[0] {
      ProductAt(rest, a[1..]);
      MulLess(a[0], b[0], Rank(rest, a[1..]), c);
    } else {
      RankLexOrder(rest, a[1..], b[1..]);
    }
  }

  /** The sum of the lengths of some lists. */
  function SumLengths<T>(ls: seq<seq<T>>): nat
    decreases |ls|
  {
    if ls == [] then 0 else |ls[0]| + SumLengths(ls[1..])
  }

  /** The sum of the cardinalities of some filters' values. */
  function TotalCardinality(params: seq<Filter>): nat
    decreases |params|
  {
    if params == [] then 0 else Cardinality(params[0].value) + TotalCardinality(params[1..])
  }

  /** `sum(ls, [])`: the lists one after the other. */
  function Flatten<T(!new)>(ls: seq<seq<T>>): (r: seq<T>)
    ensures |r| == SumLengths(ls)
    ensures forall x :: x in r <==> exists i :: 0 <= i < |ls| && x in ls[i]
    decreases |ls|
  {
    if ls == [] then []
    else
      var r := ls[0] + Flatten(ls[1..]);
      assert forall x :: x in r <==> exists i :: 0 <= i < |ls| && x in ls[i] by {
        forall x ensures x in r <==> exists i :: 0 <= i < |ls| && x in ls[i] {
          if x in Flatten(ls[1..]) {
            var i :| 0 <= i < |ls[1..]| && x in ls[1..][i];
            assert x in ls[i + 1];
          }
          if exists i :: 0 <= i < |ls| && x in ls[i] {
            var i :| 0 <= i < |ls| && x in ls[i];
            if i > 0 { assert x in ls[1..][i - 1]; }
          }
        }
      }
      r
  }

  /** Flattening a concatenation flattens each part in turn. */
  lemma {:induction false} FlattenAppend<T(!new)>(a: seq<seq<T>>, b: seq<seq<T>>)
    ensures Flatten(a + b) == Flatten(a) + Flatten(b)
    decreases |a|
  {
    if a == [] {
      assert a + b == b;
    } else {
      assert (a + b)[0] == a[0];
      assert (a + b)[1..] == a[1..] + b;
      FlattenAppend(a[1..], b);
    }
  }

  /** A single list flattens to itself. */
  lemma FlattenOne<T(!new)>(x: seq<T>)
    ensures Flatten([x]) == x
  {
    assert [x][1..] == [];
  }

  /** Lists with the filters' cardinalities as lengths have their product
      as the number of combinations. */
  lemma {:induction false} CardProductOfFormatted(ls: seq<seq<Pair>>, params: seq<Filter>)
    requires |ls| == |params|
    requires forall i :: 0 <= i < |ls| ==> |ls[i]| == Cardinality(params[i].value)
    ensures CardProduct(ls) == CardinalityProduct(params)
    ensures SumLengths(ls) == TotalCardinality(params)
    decreases |ls|
  {
    if ls != [] {
      CardProductOfFormatted(ls[1..], params[1..]);
    }
  }

  /** `cartesian_product(params)`: one combination per element of the
      product of the filters' pair lists. */
  function CartesianProduct(params: seq<Filter>, inputMap: InputMap): (r: Result<seq<seq<Pair>>, DecomposeError>)
    ensures r.Success? <==> AllMapped(params, inputMap)
    ensures r.Failure? ==> FirstUnmapped(params, inputMap, r.error.name)
    ensures r.Success? ==> |r.value| == CardinalityProduct(params)
    ensures r.Success? ==> forall p :: 0 <= p < |r.value| ==>
      IsCombination(FormatQueryParams(params, inputMap).value, r.value[p])
    ensures r.Success? ==> forall p :: 0 <= p < |r.value| ==> |r.value[p]| == |params|
  {
    match FormatQueryParams(params, inputMap)
    case Failure(e) => Failure(e)
    case Success(ls) =>
      CardProductOfFormatted(ls, params);
      Success(Product(ls))
  }

  /** `format_list_params(list_params)`: every pair of every list filter, in
      order, in one flat tuple. */
  function FormatListParams(params: seq<Filter>, inputMap: InputMap): (r: Result<seq<Pair>, DecomposeError>)
    ensures r.Success? <==> AllMapped(params, inputMap)
    ensures r.Failure? ==> FirstUnmapped(params, inputMap, r.error.name)
    ensures r.Success? ==> |r.value| == TotalCardinality(params)
    ensures r.Success? ==> forall x :: x in r.value <==>
      exists j :: 0 <= j < |params| && x in TranslateParam(params[j].name, params[j].value, inputMap).value
  {
    match FormatQueryParams(params, inputMap)
    case Failure(e) => Failure(e)
    case Success(ls) =>
      CardProductOfFormatted(ls, params);
      Success(Flatten(ls))
  }

  /** The list tuple is the pairs of the list filters, one filter after the
      other in iteration order. */
  lemma FormatListParamsAppend(init: seq<Filter>, last: Filter, inputMap: InputMap)
    requires AllMapped(init + [last], inputMap)
    ensures AllMapped(init, inputMap)
    ensures FormatListParams(init + [last], inputMap).value ==
      FormatListParams(init, inputMap).value + TranslateParam(last.name, last.value, inputMap).value
  {
    var params := init + [last];
    assert params[..|params| - 1] == init && params[|params| - 1] == last;
    var ls := FormatQueryParams(init, inputMap).value;
    var pairs := TranslateParam(last.name, last.value, inputMap).value;
    assert FormatQueryParams(params, inputMap).value == ls + [pairs];
    FlattenAppend(ls, [pairs]);
    FlattenOne(pairs);
  }

  /** `[query + tail for query in queries]`. */
  function AppendTail(queries: seq<seq<Pair>>, tail: seq<Pair>, n: nat): (r: seq<seq<Pair>>)
    requires forall i :: 0 <= i < |queries| ==> |queries[i]| == n
    ensures |r| == |queries|
    ensures forall i :: 0 <= i < |r| ==> |r[i]| == n + |tail|
    ensures forall i :: 0 <= i < |r| ==> r[i][..n] == queries[i] && r[i][n..] == tail
  {
    seq(|queries|, i requires 0 <= i < |queries| => queries[i] + tail)
  }

  /** `subquery_list_from(params)`: each combination of the subquery
      filters, followed by the flattened list filters. */
  function SubqueryListFrom(params: seq<Filter>, inputMap: InputMap): (r: Result<seq<seq<Pair>>, DecomposeError>)
    ensures r.Success? <==> AllMapped(params, inputMap)
    ensures r.Failure? ==>
      FirstUnmapped(SubqueryParams(params), inputMap, r.error.name) ||
      (AllMapped(SubqueryParams(params), inputMap) && FirstUnmapped(ListParams(params), inputMap, r.error.name))
    ensures r.Success? ==> AllMapped(SubqueryParams(params), inputMap) && AllMapped(ListParams(params), inputMap)
    ensures r.Success? ==> |r.value| == CardinalityProduct(SubqueryParams(params))
    ensures r.Success? ==> forall i :: 0 <= i < |r.value| ==>
      |r.value[i]| == |SubqueryParams(params)| + TotalCardinality(ListParams(params)) &&
      r.value[i][..|SubqueryParams(params)|] == CartesianProduct(SubqueryParams(params), inputMap).value[i] &&
      r.value[i][|SubqueryParams(params)|..] == FormatListParams(ListParams(params), inputMap).value
  {
    var subqueryParams, listParams := SubqueryParams(params), ListParams(params);
    var queries := CartesianProduct(subqueryParams, inputMap);
    var tail := FormatListParams(listParams, inputMap);
    MappedParts(params, inputMap);
    if queries.Failure? then Failure(queries.error)
    else if tail.Failure? then Failure(tail.error)
    else
      Success(AppendTail(queries.value, tail.value, |subqueryParams|))
  }

  /** With no subquery filters there is exactly one subquery: the list
      filters' tuple. */
  lemma SingleSubqueryWithoutCombinations(params: seq<Filter>, inputMap: InputMap)
    requires AllMapped(params, inputMap)
    requires SubqueryParams(params) == []
    ensures (MappedParts(params, inputMap);
      SubqueryListFrom(params, inputMap) == Success([FormatListParams(ListParams(params), inputMap).value]))
  {
    MappedParts(params, inputMap);
    var r := SubqueryListFrom(params, inputMap).value;
    assert |r| == 1;
    assert r[0] == r[0][0..];
    assert r == [r[0]];
  }

  /** The subquery at the rank of a choice of one value per subquery filter
      holds, in filter order, the chosen value's pair of each filter, then
      the list tuple. */
  lemma {:induction false} SubqueryAtChoice(params: seq<Filter>, inputMap: InputMap, idx: seq<nat>)
    requires AllMapped(params, inputMap)
    requires |idx| == |SubqueryParams(params)|
    requires forall j :: 0 <= j < |idx| ==> idx[j] < Cardinality(SubqueryParams(params)[j].value)
    ensures (MappedParts(params, inputMap);
      var ls := FormatQueryParams(SubqueryParams(params), inputMap).value;
      IsChoice(ls, idx) &&
      Rank(ls, idx) < |SubqueryListFrom(params, inputMap).value| &&
      SubqueryListFrom(params, inputMap).value[Rank(ls, idx)] ==
        Pick(ls, idx) + FormatListParams(ListParams(params), inputMap).value)
  {
    MappedParts(params, inputMap);
    var sp := SubqueryParams(params);
    var ls := FormatQueryParams(sp, inputMap).value;
    assert IsChoice(ls, idx);
    ProductAt(ls, idx);
    var r := SubqueryListFrom(params, inputMap).value;
    var k := Rank(ls, idx);
    assert r[k] == r[k][..|sp|] + r[k][|sp|..];
  }
}
